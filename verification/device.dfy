/**
 * One device's reconciliation record (class `Device`).
 *
 * The record keeps its DHCP-sourced and ARP-sourced fields in two maps that
 * merges update in place, and a derived conflict state that every merge
 * recomputes. `Valid()` says the derived state always agrees with the maps.
 */
module DeviceModel {
  import opened Rows
  import opened Conflicts
  import opened Merge

  /** The DHCP fields a new device starts with, all `None`. */
  function InitialDhcp(): (m: Fields)
    ensures forall k | k in m :: m[k] == None
  {
    map["comment" := None, "address" := None, "mac-address" := None, "status" := None,
        "host-name" := None, "last-seen" := None, "client-id" := None, "server" := None,
        "dynamic" := None]
  }

  /** The ARP fields a new device starts with, all `None`. */
  function InitialArp(): (m: Fields)
    ensures forall k | k in m :: m[k] == None
  {
    map["comment" := None, "address" := None, "mac-address" := None, "status" := None,
        "interface" := None, "published" := None, "invalid" := None, "dynamic" := None]
  }

  /** A fresh device has no conflict: neither of its maps is fully populated. */
  lemma InitialHasNoConflicts()
    ensures EvaluateConflicts(InitialDhcp(), InitialArp()) == map[]
  {
    assert !AllTruthy(InitialDhcp()) by { assert !Truthy(InitialDhcp()["comment"]); }
    assert !AllTruthy(InitialArp()) by { assert !Truthy(InitialArp()["comment"]); }
  }

  /** The stored conflict flag is set exactly when some conflict kind was recorded. */
  lemma HasConflictsIff(dhcp: Fields, arp: Fields)
    ensures EvaluateConflicts(dhcp, arp) != map[] <==>
      Evaluated(dhcp, arp) && (IpDisagree(dhcp, arp) || MacDisagree(dhcp, arp))
  {
    var r := EvaluateConflicts(dhcp, arp);
    if Evaluated(dhcp, arp) && IpDisagree(dhcp, arp) {
      assert IpMismatch in r;
    } else if Evaluated(dhcp, arp) && MacDisagree(dhcp, arp) {
      assert MacMismatch in r;
    }
  }

  class Device {
    const identifier: string
    var dhcpData: Fields
    var arpData: Fields
    var hasConflicts: bool
    var conflictDetails: ConflictDetails

    /** The conflict state is the one the current maps give. */
    ghost predicate Valid()
      reads this
    {
      && conflictDetails == EvaluateConflicts(dhcpData, arpData)
      && hasConflicts == (conflictDetails != map[])
    }

    /** Every fixed key of either source is present: merges only ever add keys. */
    ghost predicate Complete()
      reads this
    {
      InitialDhcp().Keys <= dhcpData.Keys && InitialArp().Keys <= arpData.Keys
    }

    constructor (identifier: string)
      ensures Valid() && Complete()
      ensures this.identifier == identifier
      ensures dhcpData == InitialDhcp() && arpData == InitialArp()
      ensures !hasConflicts && conflictDetails == map[]
    {
      this.identifier := identifier;
      dhcpData := InitialDhcp();
      arpData := InitialArp();
      hasConflicts := false;
      conflictDetails := map[];
      new;
      InitialHasNoConflicts();
    }

    /** Merge a lease row into the DHCP fields, then re-evaluate conflicts. */
    method AddDhcpData(lease: Fields)
      requires Valid()
      modifies this
      ensures Valid()
      ensures old(Complete()) ==> Complete()
      ensures dhcpData == Update(old(dhcpData), lease)
      ensures arpData == old(arpData)
      ensures conflictDetails == EvaluateConflicts(dhcpData, arpData)
    {
      dhcpData := Update(dhcpData, lease);
      CheckConflicts();
    }

    /** Merge an ARP row into the ARP fields, then re-evaluate conflicts. */
    method AddArpData(entry: Fields)
      requires Valid()
      modifies this
      ensures Valid()
      ensures old(Complete()) ==> Complete()
      ensures arpData == Update(old(arpData), entry)
      ensures dhcpData == old(dhcpData)
      ensures conflictDetails == EvaluateConflicts(dhcpData, arpData)
    {
      arpData := Update(arpData, entry);
      CheckConflicts();
    }

    /** Reset the conflict state, then record each mismatch the current maps show. */
    method CheckConflicts()
      modifies this`hasConflicts, this`conflictDetails
      ensures conflictDetails == EvaluateConflicts(dhcpData, arpData)
      ensures hasConflicts == (conflictDetails != map[])
    {
      hasConflicts := false;
      conflictDetails := map[];

      if !AllTruthy(dhcpData) && !AllTruthy(arpData) {
        return;
      }

      var dhcpIp := Get(dhcpData, "address");
      var arpIp := Get(arpData, "address");
      if Truthy(dhcpIp) && Truthy(arpIp) && dhcpIp.value != arpIp.value {
        hasConflicts := true;
        conflictDetails := conflictDetails[IpMismatch := map[DhcpIp := dhcpIp.value, ArpIp := arpIp.value]];
      }

      var dhcpMac := Get(dhcpData, "mac-address");
      var arpMac := Get(arpData, "mac-address");
      if Truthy(dhcpMac) && Truthy(arpMac) && Upper(dhcpMac.value) != Upper(arpMac.value) {
        hasConflicts := true;
        conflictDetails := conflictDetails[MacMismatch := map[DhcpMac := dhcpMac.value, ArpMac := arpMac.value]];
      }
    }

    /** The merged view; its conflict fields always agree with the current maps. */
    function GetMergedData(): (r: Result<MergedView, MergeError>)
      reads this
      requires Valid()
      ensures r.Ok? <==> !NoAddress(dhcpData, arpData) && !NoMac(dhcpData, arpData)
      ensures r.Err? ==> r.error.identifier == identifier
      ensures r.Ok? ==> r.value.conflictDetails == EvaluateConflicts(dhcpData, arpData)
      ensures r.Ok? ==> (r.value.conflicts <==> r.value.conflictDetails != map[])
    {
      MergedData(identifier, dhcpData, arpData, hasConflicts, conflictDetails)
    }

    /** Whether a conflict is recorded: exactly when the current maps disagree after evaluation. */
    function HasConflicts(): (r: bool)
      reads this
      requires Valid()
      ensures r <==> Evaluated(dhcpData, arpData) && (IpDisagree(dhcpData, arpData) || MacDisagree(dhcpData, arpData))
    {
      HasConflictsIff(dhcpData, arpData);
      hasConflicts
    }

    /** The recorded conflicts: only the two known kinds, recomputed from the current maps. */
    function GetConflictDetails(): (r: ConflictDetails)
      reads this
      requires Valid()
      ensures r == EvaluateConflicts(dhcpData, arpData)
      ensures r.Keys <= {IpMismatch, MacMismatch}
    {
      conflictDetails
    }

    /** The DHCP fields; every fixed key is present. */
    function GetDhcpData(): (r: Fields)
      reads this
      requires Complete()
      ensures InitialDhcp().Keys <= r.Keys
    {
      dhcpData
    }

    /** The ARP fields; every fixed key is present. */
    function GetArpData(): (r: Fields)
      reads this
      requires Complete()
      ensures InitialArp().Keys <= r.Keys
    {
      arpData
    }
  }
}

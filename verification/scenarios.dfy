/**
 * Concrete rows run through the model: a laptop's lease with matching,
 * changed and fully populated ARP rows, a lease without a MAC, no leases,
 * and a row applied twice.
 */
module Scenarios {
  import opened Rows
  import opened Conflicts
  import opened Merge
  import opened DeviceModel
  import opened Network

  const LaptopMac: string := "AA:BB:CC:00:11:22"

  const LaptopLease: Fields := map[
    "address" := Some("10.0.0.5"), "mac-address" := Some(LaptopMac), "host-name" := Some("laptop"),
    "status" := Some("bound"), "dynamic" := Some("true")]

  /** A partial ARP row for the laptop, reporting `address`. */
  function PartialArp(address: string): Fields
  {
    map["address" := Some(address), "mac-address" := Some(LaptopMac), "interface" := Some("bridge1"),
        "status" := Some("reachable")]
  }

  /** An ARP row with every fixed ARP key truthy. */
  function FullArp(address: string, mac: string): Fields
  {
    map["comment" := Some("desk"), "address" := Some(address), "mac-address" := Some(mac),
        "status" := Some("reachable"), "interface" := Some("bridge1"), "published" := Some("false"),
        "invalid" := Some("false"), "dynamic" := Some("true")]
  }

  /** An ARP table holding one row, found under the laptop's MAC only. */
  function LaptopTable(row: Fields): string -> Option<Fields>
  {
    (m: string) => if m == LaptopMac then Some(row) else None
  }

  /** The laptop's device after its one lease: the lease's fields over the initial ones. */
  lemma LaptopLeaseAlone()
    ensures DhcpFor([LaptopLease], LaptopMac) == Update(InitialDhcp(), LaptopLease)
    ensures FirstSeen([LaptopLease]) == [LaptopMac]
  {
    assert Accepted(LaptopLease);
    assert [LaptopLease][..0] == [];
  }

  lemma LaptopDhcpFields()
    ensures var d := Update(InitialDhcp(), LaptopLease);
      && Get(d, "address") == Some("10.0.0.5")
      && Get(d, "mac-address") == Some(LaptopMac)
      && Get(d, "host-name") == Some("laptop")
      && Get(d, "dynamic") == Some("true")
      && Get(d, "comment") == None
  {
  }

  lemma PartialArpFields(address: string)
    ensures var a := Update(InitialArp(), PartialArp(address));
      && Get(a, "address") == Some(address)
      && Get(a, "mac-address") == Some(LaptopMac)
      && Get(a, "interface") == Some("bridge1")
      && Get(a, "comment") == None
  {
  }

  /** A fully populated ARP row is evaluated, and overrides every initial ARP field. */
  lemma FullArpFields(address: string, mac: string)
    requires address != "" && mac != ""
    ensures var a := Update(InitialArp(), FullArp(address, mac));
      && AllTruthy(a)
      && Get(a, "address") == Some(address)
      && Get(a, "mac-address") == Some(mac)
  {
    var a := Update(InitialArp(), FullArp(address, mac));
    assert a.Keys == FullArp(address, mac).Keys;
  }

  /** The view `main` reports for the laptop, given the ARP table's row for it. */
  lemma LaptopView(row: Fields)
    requires |row| > 0
    ensures var dhcp, arp := Update(InitialDhcp(), LaptopLease), Update(InitialArp(), row);
      var details := EvaluateConflicts(dhcp, arp);
      ExpectedView([LaptopLease], LaptopTable(row), LaptopMac) == MergedData(LaptopMac, dhcp, arp, details != map[], details)
  {
    LaptopLeaseAlone();
  }

  /** Matching DHCP and ARP rows give the merged view of both sources, with no conflict. */
  lemma MatchingRowsScenario()
    ensures var v := ExpectedView([LaptopLease], LaptopTable(PartialArp("10.0.0.5")), LaptopMac);
      && v.Ok?
      && v.value.ipAddress == "10.0.0.5" && v.value.macAddress == LaptopMac
      && v.value.hostname == "laptop" && !v.value.staticLease && v.value.interface == "bridge1"
      && !v.value.conflicts
  {
    var row := PartialArp("10.0.0.5");
    var dhcp, arp := Update(InitialDhcp(), LaptopLease), Update(InitialArp(), row);
    LaptopView(row);
    LaptopDhcpFields();
    PartialArpFields("10.0.0.5");
    assert !Evaluated(dhcp, arp) by {
      assert !Truthy(dhcp["comment"]) && !Truthy(arp["comment"]);
    }
    var c := EvaluateConflicts(dhcp, arp);
    DhcpFieldDefaults(LaptopMac, dhcp, arp, c != map[], c);
    ArpFieldDefaults(LaptopMac, dhcp, arp, c != map[], c);
  }

  /**
   * A changed ARP address is NOT reported as a conflict: neither map is fully
   * populated (the DHCP comment and the ARP comment are still `None`), so
   * evaluation is skipped.
   */
  lemma ChangedArpAddressScenario()
    ensures var v := ExpectedView([LaptopLease], LaptopTable(PartialArp("10.0.0.9")), LaptopMac);
      && v.Ok?
      && v.value.ipAddress == "10.0.0.5"
      && !v.value.conflicts && v.value.conflictDetails == map[]
  {
    var row := PartialArp("10.0.0.9");
    var dhcp, arp := Update(InitialDhcp(), LaptopLease), Update(InitialArp(), row);
    LaptopView(row);
    LaptopDhcpFields();
    PartialArpFields("10.0.0.9");
    assert !Evaluated(dhcp, arp) by {
      assert !Truthy(dhcp["comment"]) && !Truthy(arp["comment"]);
    }
  }

  /** With the ARP row fully populated, the address disagreement is recorded with both addresses. */
  lemma FullArpConflicts()
    ensures EvaluateConflicts(Update(InitialDhcp(), LaptopLease), Update(InitialArp(), FullArp("10.0.0.9", LaptopMac)))
         == map[IpMismatch := map[DhcpIp := "10.0.0.5", ArpIp := "10.0.0.9"]]
  {
    var dhcp, arp := Update(InitialDhcp(), LaptopLease), Update(InitialArp(), FullArp("10.0.0.9", LaptopMac));
    LaptopDhcpFields();
    FullArpFields("10.0.0.9", LaptopMac);
    assert Evaluated(dhcp, arp) && IpDisagree(dhcp, arp) && !MacDisagree(dhcp, arp);
    OnlyIpMismatch(dhcp, arp);
  }

  /** Once the ARP row is fully populated, the changed address is reported as a conflict. */
  lemma FullArpRowScenario()
    ensures var v := ExpectedView([LaptopLease], LaptopTable(FullArp("10.0.0.9", LaptopMac)), LaptopMac);
      && v.Ok?
      && v.value.conflicts
      && v.value.conflictDetails == map[IpMismatch := map[DhcpIp := "10.0.0.5", ArpIp := "10.0.0.9"]]
  {
    LaptopView(FullArp("10.0.0.9", LaptopMac));
    LaptopDhcpFields();
    FullArpConflicts();
  }

  /** A DHCP address with no MAC from either source fails on the MAC, not only when both identities are missing. */
  lemma MissingMacAloneFails(identifier: string)
    ensures var dhcp := Update(InitialDhcp(), map["address" := Some("10.0.0.5")]);
      MergedData(identifier, dhcp, InitialArp(), false, map[]) == Err(NoValidMacAddressError(identifier))
  {
  }

  /** A lease without a MAC after the laptop's lease adds no device and changes no fields. */
  lemma MissingMacLeaseScenario(arpLookup: string -> Option<Fields>)
    ensures var leases := [LaptopLease, map["address" := Some("10.0.0.7")]];
      && FirstSeen(leases) == [LaptopMac]
      && AcceptedMacs(leases) == {LaptopMac}
      && ExpectedView(leases, arpLookup, LaptopMac) == ExpectedView([LaptopLease], arpLookup, LaptopMac)
  {
    var bad: Fields := map["address" := Some("10.0.0.7")];
    assert !Accepted(bad);
    assert [LaptopLease, bad] == [LaptopLease] + [bad];
    SkippedLeaseChangesNothing([LaptopLease], bad);
    LaptopLeaseAlone();
    FirstSeenLists([LaptopLease]);
  }

  /** No leases: the pass fails before any device exists and reports nothing. */
  method NoLeasesScenario(arpLookup: string -> Option<Fields>)
    returns (shown: seq<MergedView>, error: Option<PassError>)
    ensures shown == [] && error == Some(NoDHCPLeasesError)
  {
    shown, error := RunPass([], arpLookup);
  }

  /** Applying the same DHCP row twice leaves the same fields and conflicts as applying it once. */
  method ReapplyDhcpRow(identifier: string, row: Fields)
    returns (once: Fields, twice: Fields, onceConflicts: ConflictDetails, twiceConflicts: ConflictDetails)
    ensures once == twice == Update(InitialDhcp(), row)
    ensures onceConflicts == twiceConflicts
  {
    var a := new Device(identifier);
    a.AddDhcpData(row);
    var b := new Device(identifier);
    b.AddDhcpData(row);
    b.AddDhcpData(row);
    UpdateIdempotent(InitialDhcp(), row);
    once, twice := a.GetDhcpData(), b.GetDhcpData();
    onceConflicts, twiceConflicts := a.GetConflictDetails(), b.GetConflictDetails();
  }
}

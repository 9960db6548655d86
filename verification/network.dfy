/**
 * The reconciliation pass of `main`: group DHCP leases by MAC into devices,
 * apply each device's ARP entry, then project every device into its merged
 * view in insertion order, stopping at the first device that cannot be
 * projected.
 *
 * The router is not modelled: the lease list is an input, and the ARP query
 * by MAC is a pure function `arpLookup` from a MAC to the first matching row,
 * if any.
 */
module Network {
  import opened Rows
  import opened Conflicts
  import opened Merge
  import opened DeviceModel

  /** What ends a pass early; both are caught by the pass's handler and logged. */
  datatype PassError =
    | NoDHCPLeasesError
    | DeviceFailure(cause: MergeError)

  /** A lease is processed only when it has a truthy address and a truthy MAC. */
  predicate Accepted(lease: Fields)
  {
    Truthy(Get(lease, "address")) && Truthy(Get(lease, "mac-address"))
  }

  function MacOf(lease: Fields): string
    requires Accepted(lease)
  {
    Get(lease, "mac-address").value
  }

  /** `if arp_entry:` — a lookup result counts only when it is a non-empty row. */
  predicate Present(entry: Option<Fields>)
  {
    entry.Some? && |entry.value| > 0
  }

  /** The MACs of all accepted leases. */
  function AcceptedMacs(leases: seq<Fields>): set<string>
  {
    set i | 0 <= i < |leases| && Accepted(leases[i]) :: MacOf(leases[i])
  }

  lemma AcceptedMacsSnoc(leases: seq<Fields>)
    requires leases != []
    ensures var n := |leases|;
      AcceptedMacs(leases) == AcceptedMacs(leases[..n - 1]) +
        (if Accepted(leases[n - 1]) then {MacOf(leases[n - 1])} else {})
  {
    var n := |leases|;
    var prefix := leases[..n - 1];
    var extra: set<string> := if Accepted(leases[n - 1]) then {MacOf(leases[n - 1])} else {};
    forall m | m in AcceptedMacs(leases)
      ensures m in AcceptedMacs(prefix) + extra
    {
      var i :| 0 <= i < n && Accepted(leases[i]) && MacOf(leases[i]) == m;
      if i < n - 1 {
        assert prefix[i] == leases[i];
      }
    }
    forall m | m in AcceptedMacs(prefix)
      ensures m in AcceptedMacs(leases)
    {
      var i :| 0 <= i < n - 1 && Accepted(prefix[i]) && MacOf(prefix[i]) == m;
      assert leases[i] == prefix[i];
    }
  }

  /** There are never more distinct accepted MACs than leases. */
  lemma {:induction false} AcceptedMacsBound(leases: seq<Fields>)
    ensures |AcceptedMacs(leases)| <= |leases|
  {
    if leases != [] {
      var n := |leases|;
      AcceptedMacsSnoc(leases);
      AcceptedMacsBound(leases[..n - 1]);
    }
  }

  /** The MACs of accepted leases in order of first appearance: the insertion order of the device map. */
  function FirstSeen(leases: seq<Fields>): seq<string>
  {
    if leases == [] then []
    else
      var n := |leases|;
      var prev := FirstSeen(leases[..n - 1]);
      if Accepted(leases[n - 1]) && MacOf(leases[n - 1]) !in prev
      then prev + [MacOf(leases[n - 1])]
      else prev
  }

  /** Each accepted MAC is listed once, and nothing else is listed. */
  lemma {:induction false} FirstSeenLists(leases: seq<Fields>)
    ensures |FirstSeen(leases)| <= |leases|
    ensures forall i, j :: 0 <= i < j < |FirstSeen(leases)| ==> FirstSeen(leases)[i] != FirstSeen(leases)[j]
    ensures forall m :: m in FirstSeen(leases) <==> m in AcceptedMacs(leases)
  {
    if leases != [] {
      var n := |leases|;
      FirstSeenLists(leases[..n - 1]);
      AcceptedMacsSnoc(leases);
    }
  }

  /** The DHCP fields of the device for `mac` once every lease has been applied in order. */
  function DhcpFor(leases: seq<Fields>, mac: string): Fields
  {
    if leases == [] then InitialDhcp()
    else
      var n := |leases|;
      var prev := DhcpFor(leases[..n - 1], mac);
      if Accepted(leases[n - 1]) && MacOf(leases[n - 1]) == mac then Update(prev, leases[n - 1]) else prev
  }

  /** The ARP fields of the device for `mac`: its lookup result applied, if present, however often. */
  function ArpFor(arpLookup: string -> Option<Fields>, mac: string): Fields
  {
    var entry := arpLookup(mac);
    if Present(entry) then Update(InitialArp(), entry.value) else InitialArp()
  }

  /** What the device for `mac` projects to at the end of grouping. */
  function ExpectedView(leases: seq<Fields>, arpLookup: string -> Option<Fields>, mac: string): Result<MergedView, MergeError>
  {
    var dhcp, arp := DhcpFor(leases, mac), ArpFor(arpLookup, mac);
    var details := EvaluateConflicts(dhcp, arp);
    MergedData(mac, dhcp, arp, details != map[], details)
  }

  /**
   * A key of a device's DHCP fields holds the value of the last accepted lease
   * for that MAC that carries the key: later leases overwrite earlier ones key by key.
   */
  lemma {:induction false} DhcpForLastWriter(leases: seq<Fields>, mac: string, i: int, k: string)
    requires 0 <= i < |leases| && Accepted(leases[i]) && MacOf(leases[i]) == mac && k in leases[i]
    requires forall j :: i < j < |leases| && Accepted(leases[j]) && MacOf(leases[j]) == mac ==> k !in leases[j]
    ensures k in DhcpFor(leases, mac) && DhcpFor(leases, mac)[k] == leases[i][k]
  {
    var n := |leases|;
    var prefix := leases[..n - 1];
    if i < n - 1 {
      assert prefix[i] == leases[i];
      forall j | i < j < |prefix| && Accepted(prefix[j]) && MacOf(prefix[j]) == mac
        ensures k !in prefix[j]
      {
        assert prefix[j] == leases[j];
      }
      DhcpForLastWriter(prefix, mac, i, k);
    }
  }

  /** A key no accepted lease for `mac` carries keeps its initial state. */
  lemma {:induction false} DhcpForUntouched(leases: seq<Fields>, mac: string, k: string)
    requires forall j :: 0 <= j < |leases| && Accepted(leases[j]) && MacOf(leases[j]) == mac ==> k !in leases[j]
    ensures k in DhcpFor(leases, mac) <==> k in InitialDhcp()
    ensures k in InitialDhcp() ==> DhcpFor(leases, mac)[k] == None
  {
    if leases != [] {
      var n := |leases|;
      var prefix := leases[..n - 1];
      forall j | 0 <= j < |prefix| && Accepted(prefix[j]) && MacOf(prefix[j]) == mac
        ensures k !in prefix[j]
      {
        assert prefix[j] == leases[j];
      }
      DhcpForUntouched(prefix, mac, k);
    }
  }

  /**
   * Every device grouping creates got an accepted lease, so its DHCP fields
   * hold a truthy address and exactly its own MAC.
   */
  lemma {:induction false} GroupedHaveIdentity(leases: seq<Fields>, mac: string)
    requires mac in AcceptedMacs(leases)
    ensures Truthy(Get(DhcpFor(leases, mac), "address"))
    ensures Get(DhcpFor(leases, mac), "mac-address") == Some(mac)
  {
    var n := |leases|;
    AcceptedMacsSnoc(leases);
    if !(Accepted(leases[n - 1]) && MacOf(leases[n - 1]) == mac) {
      GroupedHaveIdentity(leases[..n - 1], mac);
    }
  }

  /** Hence the projection of a grouped device never fails, and reports the device's own MAC. */
  lemma GroupedViewOk(leases: seq<Fields>, arpLookup: string -> Option<Fields>, mac: string)
    requires mac in AcceptedMacs(leases)
    ensures ExpectedView(leases, arpLookup, mac).Ok?
    ensures ExpectedView(leases, arpLookup, mac).value.macAddress == mac
    ensures Get(DhcpFor(leases, mac), "address") == Some(ExpectedView(leases, arpLookup, mac).value.ipAddress)
  {
    GroupedHaveIdentity(leases, mac);
  }

  /** A device whose MAC the ARP lookup does not find is DHCP-only and never conflicts. */
  lemma DhcpOnlyNeverConflicts(leases: seq<Fields>, arpLookup: string -> Option<Fields>, mac: string)
    requires !Present(arpLookup(mac))
    ensures EvaluateConflicts(DhcpFor(leases, mac), ArpFor(arpLookup, mac)) == map[]
  {
    SingleSourceNeverConflicts(DhcpFor(leases, mac), ArpFor(arpLookup, mac));
  }

  /** A lease without a truthy address or MAC is skipped: no device, no order entry, no field changes. */
  lemma SkippedLeaseChangesNothing(seen: seq<Fields>, lease: Fields)
    requires !Accepted(lease)
    ensures AcceptedMacs(seen + [lease]) == AcceptedMacs(seen)
    ensures FirstSeen(seen + [lease]) == FirstSeen(seen)
    ensures forall m :: DhcpFor(seen + [lease], m) == DhcpFor(seen, m)
  {
    AcceptedMacsAppend(seen, lease);
    FirstSeenSnoc(seen, lease);
    forall m
      ensures DhcpFor(seen + [lease], m) == DhcpFor(seen, m)
    {
      DhcpForSnoc(seen, lease, m);
    }
  }

  /** The device for `mac` holds exactly what grouping the leases `seen` gives it. */
  ghost predicate Tracks(device: Device, seen: seq<Fields>, arpLookup: string -> Option<Fields>, mac: string)
    reads device
  {
    && device.Valid()
    && device.identifier == mac
    && device.dhcpData == DhcpFor(seen, mac)
    && device.arpData == ArpFor(arpLookup, mac)
  }

  /** A device that holds what grouping gave it projects to the expected view. */
  lemma TrackedView(device: Device, seen: seq<Fields>, arpLookup: string -> Option<Fields>, mac: string)
    requires Tracks(device, seen, arpLookup, mac)
    ensures device.GetMergedData() == ExpectedView(seen, arpLookup, mac)
  {
  }

  /** Grouping never loses a fixed DHCP key: leases only add keys. */
  lemma {:induction false} DhcpForKeys(leases: seq<Fields>, mac: string)
    ensures InitialDhcp().Keys <= DhcpFor(leases, mac).Keys
  {
    if leases != [] {
      DhcpForKeys(leases[..|leases| - 1], mac);
    }
  }

  /** Nor a fixed ARP key. */
  lemma ArpForKeys(arpLookup: string -> Option<Fields>, mac: string)
    ensures InitialArp().Keys <= ArpFor(arpLookup, mac).Keys
  {
  }

  /** A device that holds what grouping gave it has every fixed key, so its field getters may be called. */
  lemma TrackedComplete(device: Device, seen: seq<Fields>, arpLookup: string -> Option<Fields>, mac: string)
    requires Tracks(device, seen, arpLookup, mac)
    ensures device.Complete()
  {
    DhcpForKeys(seen, mac);
    ArpForKeys(arpLookup, mac);
  }

  /** The device map and its insertion order after processing the leases `seen`. */
  ghost predicate Grouped(devices: map<string, Device>, order: seq<string>, seen: seq<Fields>,
                          arpLookup: string -> Option<Fields>)
    reads devices.Values
  {
    && order == FirstSeen(seen)
    && devices.Keys == AcceptedMacs(seen)
    && (forall m | m in devices :: Tracks(devices[m], seen, arpLookup, m))
    && Distinct(devices)
  }

  /** No device object is shared between two MACs. */
  predicate Distinct(devices: map<string, Device>)
  {
    forall m, m' | m in devices && m' in devices && m != m' :: devices[m] != devices[m']
  }

  lemma AcceptedMacsAppend(seen: seq<Fields>, lease: Fields)
    ensures AcceptedMacs(seen + [lease]) ==
      AcceptedMacs(seen) + (if Accepted(lease) then {MacOf(lease)} else {})
  {
    AcceptedMacsSnoc(seen + [lease]);
    assert (seen + [lease])[..|seen|] == seen;
  }

  lemma FirstSeenSnoc(seen: seq<Fields>, lease: Fields)
    ensures FirstSeen(seen + [lease]) ==
      if Accepted(lease) && MacOf(lease) !in FirstSeen(seen) then FirstSeen(seen) + [MacOf(lease)] else FirstSeen(seen)
  {
    assert (seen + [lease])[..|seen|] == seen;
  }

  lemma DhcpForSnoc(seen: seq<Fields>, lease: Fields, mac: string)
    ensures DhcpFor(seen + [lease], mac) ==
      if Accepted(lease) && MacOf(lease) == mac then Update(DhcpFor(seen, mac), lease) else DhcpFor(seen, mac)
  {
    assert (seen + [lease])[..|seen|] == seen;
  }

  /** A MAC no accepted lease carries still has the initial DHCP fields. */
  lemma {:induction false} DhcpForUnseen(seen: seq<Fields>, mac: string)
    requires mac !in AcceptedMacs(seen)
    ensures DhcpFor(seen, mac) == InitialDhcp()
  {
    if seen != [] {
      var n := |seen|;
      AcceptedMacsSnoc(seen);
      DhcpForUnseen(seen[..n - 1], mac);
    }
  }

  /**
   * The state between lines 37 and 38 of `main`: the lease's device is in the
   * map and still holds what the earlier leases gave it (its ARP fields are
   * the initial ones if it was just created); every other device is distinct
   * from it and holds what the earlier leases gave it.
   */
  ghost predicate Pending(devices: map<string, Device>, device: Device, seen: seq<Fields>,
                          lease: Fields, arpLookup: string -> Option<Fields>)
    reads devices.Values, device
  {
    && Accepted(lease)
    && MacOf(lease) in devices && devices[MacOf(lease)] == device
    && device.Valid() && device.identifier == MacOf(lease) && device.dhcpData == DhcpFor(seen, MacOf(lease))
    && (device.arpData == InitialArp() || device.arpData == ArpFor(arpLookup, MacOf(lease)))
    && (forall m | m in devices && m != MacOf(lease) :: devices[m] != device && Tracks(devices[m], seen, arpLookup, m))
  }

  /**
   * Lines 35-37 of `main`: the device for the lease's MAC, created and
   * inserted only the first time that MAC is seen.
   */
  method FindOrCreate(devices: map<string, Device>, order: seq<string>, ghost seen: seq<Fields>,
                      lease: Fields, ghost arpLookup: string -> Option<Fields>)
    returns (devices': map<string, Device>, order': seq<string>, device: Device)
    requires Grouped(devices, order, seen, arpLookup)
    requires Accepted(lease)
    ensures devices' == devices[MacOf(lease) := device]
    ensures MacOf(lease) in devices ==> device == devices[MacOf(lease)] && order' == order
    ensures MacOf(lease) !in devices ==> fresh(device) && order' == order + [MacOf(lease)]
    ensures Pending(devices', device, seen, lease, arpLookup)
  {
    var mac := Get(lease, "mac-address").value;
    devices', order' := devices, order;
    if mac !in devices {
      DhcpForUnseen(seen, mac);
      device := new Device(mac);
      devices' := devices'[mac := device];
      order' := order' + [mac];
    } else {
      device := devices[mac];
      assert Tracks(device, seen, arpLookup, mac);
    }
  }

  /**
   * Inserting the lease's device (new, or the one already there) gives the
   * map and the order the shape the longer lease list describes.
   */
  lemma InsertKeepsShape(devices: map<string, Device>, order: seq<string>, seen: seq<Fields>,
                         lease: Fields, device: Device)
    requires order == FirstSeen(seen) && devices.Keys == AcceptedMacs(seen) && Distinct(devices)
    requires Accepted(lease)
    requires MacOf(lease) in devices ==> device == devices[MacOf(lease)]
    requires forall m | m in devices && m != MacOf(lease) :: devices[m] != device
    ensures var order' := if MacOf(lease) in devices then order else order + [MacOf(lease)];
      order' == FirstSeen(seen + [lease])
    ensures devices[MacOf(lease) := device].Keys == AcceptedMacs(seen + [lease])
    ensures Distinct(devices[MacOf(lease) := device])
  {
    AcceptedMacsAppend(seen, lease);
    FirstSeenSnoc(seen, lease);
    FirstSeenLists(seen);
  }

  /** Lines 38-47 of `main` on the lease's device: apply the lease, then the ARP entry if the lookup returns one. */
  method ApplyToDevice(device: Device, ghost seen: seq<Fields>, lease: Fields, arpLookup: string -> Option<Fields>)
    requires Accepted(lease)
    requires device.Valid() && device.identifier == MacOf(lease) && device.dhcpData == DhcpFor(seen, MacOf(lease))
    requires device.arpData == InitialArp() || device.arpData == ArpFor(arpLookup, MacOf(lease))
    modifies device
    ensures Tracks(device, seen + [lease], arpLookup, MacOf(lease))
  {
    var mac := device.identifier;
    device.AddDhcpData(lease);
    var arpEntry := arpLookup(mac);
    if Present(arpEntry) {
      device.AddArpData(arpEntry.value);
      UpdateIdempotent(InitialArp(), arpEntry.value);
    }
    DhcpForSnoc(seen, lease, mac);
  }

  /** Applying a lease to its device leaves every device of the map as the longer lease list describes it. */
  method ApplyAmong(devices: map<string, Device>, device: Device, ghost seen: seq<Fields>,
                    lease: Fields, arpLookup: string -> Option<Fields>)
    requires Pending(devices, device, seen, lease, arpLookup)
    modifies device
    ensures forall m | m in devices :: Tracks(devices[m], seen + [lease], arpLookup, m)
  {
    ApplyToDevice(device, seen, lease, arpLookup);
    forall m | m in devices
      ensures Tracks(devices[m], seen + [lease], arpLookup, m)
    {
      DhcpForSnoc(seen, lease, m);
      if m != MacOf(lease) {
        assert devices[m] != device && old(Tracks(devices[m], seen, arpLookup, m));
      }
    }
  }

  /** Lines 35-47 of `main` for one accepted lease. */
  method ApplyLease(devices: map<string, Device>, order: seq<string>, ghost seen: seq<Fields>,
                    lease: Fields, arpLookup: string -> Option<Fields>)
    returns (devices': map<string, Device>, order': seq<string>, device: Device)
    requires Grouped(devices, order, seen, arpLookup)
    requires Accepted(lease)
    modifies devices.Values
    ensures Grouped(devices', order', seen + [lease], arpLookup)
    ensures devices' == devices[MacOf(lease) := device]
    ensures device in devices.Values || fresh(device)
  {
    devices', order', device := FindOrCreate(devices, order, seen, lease, arpLookup);
    InsertKeepsShape(devices, order, seen, lease, device);
    ApplyAmong(devices', device, seen, lease, arpLookup);
  }

  /** Lines 28-47 of `main`: the lease-grouping loop, with the ARP lookup abstracted. */
  method GroupLeases(leases: seq<Fields>, arpLookup: string -> Option<Fields>)
    returns (devices: map<string, Device>, order: seq<string>)
    ensures order == FirstSeen(leases)
    ensures devices.Keys == AcceptedMacs(leases)
    ensures |devices| <= |leases|
    ensures forall m | m in devices :: fresh(devices[m])
    ensures forall m | m in devices ::
      && devices[m].Valid()
      && devices[m].identifier == m
      && devices[m].dhcpData == DhcpFor(leases, m)
      && devices[m].arpData == ArpFor(arpLookup, m)
      && devices[m].Complete()
    ensures Distinct(devices)
  {
    devices := map[];
    order := [];
    var i := 0;
    while i < |leases|
      invariant 0 <= i <= |leases|
      invariant Grouped(devices, order, leases[..i], arpLookup)
      invariant forall m | m in devices :: fresh(devices[m])
    {
      var lease := leases[i];
      assert leases[..i + 1] == leases[..i] + [lease];
      var ipAddress := Get(lease, "address");
      var macAddress := Get(lease, "mac-address");
      if !Truthy(ipAddress) || !Truthy(macAddress) {
        AcceptedMacsAppend(leases[..i], lease);
        FirstSeenSnoc(leases[..i], lease);
        forall m | m in devices
          ensures DhcpFor(leases[..i + 1], m) == DhcpFor(leases[..i], m)
        {
          DhcpForSnoc(leases[..i], lease, m);
        }
        i := i + 1;
        continue;
      }
      var device;
      devices, order, device := ApplyLease(devices, order, leases[..i], lease, arpLookup);
      i := i + 1;
    }
    assert leases[..i] == leases;
    AcceptedMacsBound(leases);
    FirstSeenLists(leases);
    forall m | m in devices
      ensures Tracks(devices[m], leases, arpLookup, m) && devices[m].Complete()
    {
      TrackedComplete(devices[m], leases, arpLookup, m);
    }
  }

  /**
   * Lines 61-62 with 89-90 of `main`: project each device in insertion order.
   * The handler encloses the whole loop, so the first device that fails ends
   * the report; the failure is returned instead of propagating.
   */
  method RunReport(devices: map<string, Device>, order: seq<string>)
    returns (shown: seq<MergedView>, failure: Option<MergeError>)
    requires forall m | m in order :: m in devices && devices[m].Valid()
    ensures |shown| <= |order|
    ensures forall j | 0 <= j < |shown| :: devices[order[j]].GetMergedData() == Ok(shown[j])
    ensures failure.None? <==> |shown| == |order|
    ensures failure.Some? ==> devices[order[|shown|]].GetMergedData() == Err(failure.value)
  {
    shown := [];
    failure := None;
    var i := 0;
    while i < |order|
      invariant i == |shown| <= |order|
      invariant forall j | 0 <= j < i :: devices[order[j]].GetMergedData() == Ok(shown[j])
    {
      var result := devices[order[i]].GetMergedData();
      if result.Err? {
        failure := Some(result.error);
        return;
      }
      shown := shown + [result.value];
      i := i + 1;
    }
  }

  /**
   * Lines 19-47 with 61-62 and 89-90 of `main`: an empty lease list fails the
   * whole pass before any device exists; otherwise leases are grouped and the
   * devices reported in order of first appearance. The report's failure path
   * is never taken here: every grouped device got an accepted lease.
   */
  method RunPass(leases: seq<Fields>, arpLookup: string -> Option<Fields>)
    returns (shown: seq<MergedView>, error: Option<PassError>)
    ensures leases == [] ==> shown == [] && error == Some(NoDHCPLeasesError)
    ensures leases != [] ==> error == None && |shown| == |FirstSeen(leases)|
    ensures forall j | 0 <= j < |shown| ::
      && j < |FirstSeen(leases)|
      && ExpectedView(leases, arpLookup, FirstSeen(leases)[j]) == Ok(shown[j])
      && shown[j].macAddress == FirstSeen(leases)[j]
  {
    if leases == [] {
      return [], Some(NoDHCPLeasesError);
    }
    var devices, order := GroupLeases(leases, arpLookup);
    FirstSeenLists(leases);
    var failure;
    shown, failure := RunReport(devices, order);
    forall j | 0 <= j <= |shown| && j < |order|
      ensures devices[order[j]].GetMergedData() == ExpectedView(leases, arpLookup, order[j])
      ensures ExpectedView(leases, arpLookup, order[j]).Ok?
      ensures ExpectedView(leases, arpLookup, order[j]).value.macAddress == order[j]
    {
      TrackedView(devices[order[j]], leases, arpLookup, order[j]);
      GroupedViewOk(leases, arpLookup, order[j]);
    }
    match failure {
      case None => error := None;
      case Some(cause) => error := Some(DeviceFailure(cause));
    }
  }
}

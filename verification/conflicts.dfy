/**
 * Conflict evaluation between a device's DHCP-sourced and ARP-sourced fields.
 *
 * The stored conflict state of a device is always the value of
 * `EvaluateConflicts` on its two current maps: it is recomputed from scratch
 * after every merge and never accumulates.
 */
module Conflicts {
  import opened Rows

  /** Conflict kind to the two disagreeing values, keyed by source. */
  type ConflictDetails = map<string, map<string, string>>

  const IpMismatch: string := "ip_mismatch"
  const MacMismatch: string := "mac_mismatch"
  const DhcpIp: string := "dhcp_ip"
  const ArpIp: string := "arp_ip"
  const DhcpMac: string := "dhcp_mac"
  const ArpMac: string := "arp_mac"

  /** Evaluation proceeds only once at least one source has every value truthy. */
  predicate Evaluated(dhcp: Fields, arp: Fields)
  {
    AllTruthy(dhcp) || AllTruthy(arp)
  }

  /** Both sources report an address and the two differ as exact strings. */
  predicate IpDisagree(dhcp: Fields, arp: Fields)
  {
    var d, a := Get(dhcp, "address"), Get(arp, "address");
    Truthy(d) && Truthy(a) && d.value != a.value
  }

  /** Both sources report a MAC and the two differ once upper-cased. */
  predicate MacDisagree(dhcp: Fields, arp: Fields)
  {
    var d, a := Get(dhcp, "mac-address"), Get(arp, "mac-address");
    Truthy(d) && Truthy(a) && Upper(d.value) != Upper(a.value)
  }

  /** The conflict details a device holds after `_check_conflicts` ran on these two maps. */
  function EvaluateConflicts(dhcp: Fields, arp: Fields): (r: ConflictDetails)
    ensures r.Keys <= {IpMismatch, MacMismatch}
    ensures IpMismatch in r <==> Evaluated(dhcp, arp) && IpDisagree(dhcp, arp)
    ensures MacMismatch in r <==> Evaluated(dhcp, arp) && MacDisagree(dhcp, arp)
    ensures IpMismatch in r ==>
      r[IpMismatch] == map[DhcpIp := dhcp["address"].value, ArpIp := arp["address"].value]
    ensures MacMismatch in r ==>
      r[MacMismatch] == map[DhcpMac := dhcp["mac-address"].value, ArpMac := arp["mac-address"].value]
  {
    if !Evaluated(dhcp, arp) then map[]
    else
      var ip: ConflictDetails :=
        if IpDisagree(dhcp, arp)
        then map[IpMismatch := map[DhcpIp := Get(dhcp, "address").value, ArpIp := Get(arp, "address").value]]
        else map[];
      var mac: ConflictDetails :=
        if MacDisagree(dhcp, arp)
        then map[MacMismatch := map[DhcpMac := Get(dhcp, "mac-address").value, ArpMac := Get(arp, "mac-address").value]]
        else map[];
      ip + mac
  }

  /** With only the addresses disagreeing, exactly the `ip_mismatch` kind is recorded, with both addresses. */
  lemma OnlyIpMismatch(dhcp: Fields, arp: Fields)
    requires Evaluated(dhcp, arp) && IpDisagree(dhcp, arp) && !MacDisagree(dhcp, arp)
    ensures EvaluateConflicts(dhcp, arp) ==
      map[IpMismatch := map[DhcpIp := Get(dhcp, "address").value, ArpIp := Get(arp, "address").value]]
  {
    var ip: ConflictDetails := map[IpMismatch := map[DhcpIp := Get(dhcp, "address").value, ArpIp := Get(arp, "address").value]];
    assert ip + map[] == ip;
  }

  /** With only the MACs disagreeing, exactly the `mac_mismatch` kind is recorded, with both MACs as stored. */
  lemma OnlyMacMismatch(dhcp: Fields, arp: Fields)
    requires Evaluated(dhcp, arp) && !IpDisagree(dhcp, arp) && MacDisagree(dhcp, arp)
    ensures EvaluateConflicts(dhcp, arp) ==
      map[MacMismatch := map[DhcpMac := Get(dhcp, "mac-address").value, ArpMac := Get(arp, "mac-address").value]]
  {
    var mac: ConflictDetails := map[MacMismatch := map[DhcpMac := Get(dhcp, "mac-address").value, ArpMac := Get(arp, "mac-address").value]];
    assert map[] + mac == mac;
  }

  /** A conflict is only ever reported once one source is fully populated. */
  lemma ConflictsNeedFullSource(dhcp: Fields, arp: Fields)
    requires EvaluateConflicts(dhcp, arp) != map[]
    ensures AllTruthy(dhcp) || AllTruthy(arp)
  {
    var r := EvaluateConflicts(dhcp, arp);
    var k :| k in r;
  }

  /** With one source reporting nothing truthy, there is never a conflict. */
  lemma SingleSourceNeverConflicts(dhcp: Fields, arp: Fields)
    requires (forall k | k in dhcp :: !Truthy(dhcp[k])) || (forall k | k in arp :: !Truthy(arp[k]))
    ensures EvaluateConflicts(dhcp, arp) == map[]
  {
    if forall k | k in dhcp :: !Truthy(dhcp[k]) {
      assert !Truthy(Get(dhcp, "address")) && !Truthy(Get(dhcp, "mac-address"));
    } else {
      assert !Truthy(Get(arp, "address")) && !Truthy(Get(arp, "mac-address"));
    }
  }

  /** MACs that differ only in the case of their letters never conflict; the stored values keep their case. */
  lemma MacCaseOnlyNeverConflicts(dhcp: Fields, arp: Fields)
    requires Get(dhcp, "mac-address").Some? && Get(arp, "mac-address").Some?
    requires |Get(dhcp, "mac-address").value| == |Get(arp, "mac-address").value|
    requires forall i :: 0 <= i < |Get(dhcp, "mac-address").value| ==>
      UpperChar(Get(dhcp, "mac-address").value[i]) == UpperChar(Get(arp, "mac-address").value[i])
    ensures MacMismatch !in EvaluateConflicts(dhcp, arp)
  {
    UpperCaseInsensitive(Get(dhcp, "mac-address").value, Get(arp, "mac-address").value);
  }

  /**
   * Once evaluated, with both MACs reported, `mac_mismatch` is recorded exactly
   * when the MACs differ in length or in some character beyond its case.
   */
  lemma MacMismatchIffCaseDiffers(dhcp: Fields, arp: Fields)
    requires Evaluated(dhcp, arp)
    requires Truthy(Get(dhcp, "mac-address")) && Truthy(Get(arp, "mac-address"))
    ensures var s, t := Get(dhcp, "mac-address").value, Get(arp, "mac-address").value;
      MacMismatch in EvaluateConflicts(dhcp, arp) <==>
        |s| != |t| || exists i :: 0 <= i < |s| && UpperChar(s[i]) != UpperChar(t[i])
  {
    UpperEqIff(Get(dhcp, "mac-address").value, Get(arp, "mac-address").value);
  }

  /** Conflict state is a function of the current maps only: re-applying a row leaves it as it was. */
  lemma ReapplyKeepsConflicts(dhcp: Fields, arp: Fields, dhcpRow: Fields, arpRow: Fields)
    ensures EvaluateConflicts(Update(Update(dhcp, dhcpRow), dhcpRow), arp) == EvaluateConflicts(Update(dhcp, dhcpRow), arp)
    ensures EvaluateConflicts(dhcp, Update(Update(arp, arpRow), arpRow)) == EvaluateConflicts(dhcp, Update(arp, arpRow))
  {
    UpdateIdempotent(dhcp, dhcpRow);
    UpdateIdempotent(arp, arpRow);
  }
}

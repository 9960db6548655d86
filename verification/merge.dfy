/**
 * The merged, precedence-resolved view of one device (`get_merged_data`).
 *
 * DHCP wins over ARP for the address and the MAC; every other field comes
 * from one source with a literal default, and three booleans come from
 * exact comparison with the strings "true" and "false".
 */
module Merge {
  import opened Rows
  import opened Conflicts

  datatype MergedView = MergedView(
    conflicts: bool,
    conflictDetails: ConflictDetails,
    ipAddress: string,
    macAddress: string,
    hostname: string,
    dhcpStatus: string,
    lastSeen: string,
    comment: string,
    clientId: string,
    dhcpServer: string,
    staticLease: bool,
    interface: string,
    arpStatus: string,
    published: string,
    invalid: bool,
    dynamic: bool)

  /** The two ways a device's projection fails; each carries the device identifier of its message. */
  datatype MergeError =
    | NoValidIPAddressError(identifier: string)
    | NoValidMacAddressError(identifier: string)

  /** Neither source has a truthy address. */
  predicate NoAddress(dhcp: Fields, arp: Fields)
  {
    !Truthy(Get(dhcp, "address")) && !Truthy(Get(arp, "address"))
  }

  /** Neither source has a truthy MAC. */
  predicate NoMac(dhcp: Fields, arp: Fields)
  {
    !Truthy(Get(dhcp, "mac-address")) && !Truthy(Get(arp, "mac-address"))
  }

  /** `get_merged_data` on a device with these maps and this stored conflict state. */
  function MergedData(identifier: string, dhcp: Fields, arp: Fields,
                      hasConflicts: bool, details: ConflictDetails): (r: Result<MergedView, MergeError>)
    // the address is checked first, then the MAC
    ensures r == Err(NoValidIPAddressError(identifier)) <==> NoAddress(dhcp, arp)
    ensures r == Err(NoValidMacAddressError(identifier)) <==> !NoAddress(dhcp, arp) && NoMac(dhcp, arp)
    ensures r.Ok? <==> !NoAddress(dhcp, arp) && !NoMac(dhcp, arp)
    // DHCP-over-ARP precedence; the identity fields are never empty
    ensures r.Ok? ==> r.value.ipAddress != "" && r.value.macAddress != ""
    ensures r.Ok? ==>
      r.value.ipAddress == (if Truthy(Get(dhcp, "address")) then dhcp["address"].value else arp["address"].value)
    ensures r.Ok? ==>
      r.value.macAddress == (if Truthy(Get(dhcp, "mac-address")) then dhcp["mac-address"].value else arp["mac-address"].value)
    // the `.get` defaults never matter: only the exact strings "false" / "true" switch the booleans on
    ensures r.Ok? ==> (r.value.staticLease <==> Get(dhcp, "dynamic") == Some("false"))
    ensures r.Ok? ==> (r.value.invalid <==> Get(arp, "invalid") == Some("true"))
    ensures r.Ok? ==> (r.value.dynamic <==> Get(arp, "dynamic") == Some("true"))
    // the conflict state is reported as stored
    ensures r.Ok? ==> r.value.conflicts == hasConflicts && r.value.conflictDetails == details
  {
    var ip := FirstTruthy(Get(dhcp, "address"), Get(arp, "address"));
    if ip.None? then Err(NoValidIPAddressError(identifier))
    else
      var mac := FirstTruthy(Get(dhcp, "mac-address"), Get(arp, "mac-address"));
      if mac.None? then Err(NoValidMacAddressError(identifier))
      else
        Ok(MergedView(
          conflicts := hasConflicts,
          conflictDetails := details,
          ipAddress := ip.value,
          macAddress := mac.value,
          hostname := OrDefault(Get(dhcp, "host-name"), "N/A"),
          dhcpStatus := OrDefault(Get(dhcp, "status"), "noDHCP"),
          lastSeen := OrDefault(Get(dhcp, "last-seen"), "noDHCP"),
          comment := OrDefault(Get(dhcp, "comment"), ""),
          clientId := OrDefault(Get(dhcp, "client-id"), "noDHCP"),
          dhcpServer := OrDefault(Get(dhcp, "server"), "noDHCP"),
          staticLease := GetOr(dhcp, "dynamic", Some("true")) == Some("false"),
          interface := OrDefault(Get(arp, "interface"), "noARP"),
          arpStatus := OrDefault(Get(arp, "status"), "noARP"),
          published := OrDefault(Get(arp, "published"), "noARP"),
          invalid := GetOr(arp, "invalid", Some("false")) == Some("true"),
          dynamic := GetOr(arp, "dynamic", Some("false")) == Some("true")))
  }

  /** A DHCP field that is missing or empty shows its literal default; a truthy one shows verbatim. */
  lemma DhcpFieldDefaults(identifier: string, dhcp: Fields, arp: Fields, c: bool, details: ConflictDetails)
    requires MergedData(identifier, dhcp, arp, c, details).Ok?
    ensures var v := MergedData(identifier, dhcp, arp, c, details).value;
      && v.hostname == (if Truthy(Get(dhcp, "host-name")) then dhcp["host-name"].value else "N/A")
      && v.dhcpStatus == (if Truthy(Get(dhcp, "status")) then dhcp["status"].value else "noDHCP")
      && v.lastSeen == (if Truthy(Get(dhcp, "last-seen")) then dhcp["last-seen"].value else "noDHCP")
      && v.comment == (if Truthy(Get(dhcp, "comment")) then dhcp["comment"].value else "")
      && v.clientId == (if Truthy(Get(dhcp, "client-id")) then dhcp["client-id"].value else "noDHCP")
      && v.dhcpServer == (if Truthy(Get(dhcp, "server")) then dhcp["server"].value else "noDHCP")
      && v.hostname != "" && v.dhcpStatus != "" && v.lastSeen != "" && v.clientId != "" && v.dhcpServer != ""
  {
  }

  /** An ARP field that is missing or empty shows "noARP"; a truthy one shows verbatim. */
  lemma ArpFieldDefaults(identifier: string, dhcp: Fields, arp: Fields, c: bool, details: ConflictDetails)
    requires MergedData(identifier, dhcp, arp, c, details).Ok?
    ensures var v := MergedData(identifier, dhcp, arp, c, details).value;
      && v.interface == (if Truthy(Get(arp, "interface")) then arp["interface"].value else "noARP")
      && v.arpStatus == (if Truthy(Get(arp, "status")) then arp["status"].value else "noARP")
      && v.published == (if Truthy(Get(arp, "published")) then arp["published"].value else "noARP")
      && v.interface != "" && v.arpStatus != "" && v.published != ""
  {
  }

  /** The DHCP-sourced part of the view ignores ARP data, except as the address and MAC fallback. */
  lemma DhcpFieldsIgnoreArp(identifier: string, dhcp: Fields, arp1: Fields, arp2: Fields,
                            c: bool, details: ConflictDetails)
    requires Truthy(Get(dhcp, "address")) && Truthy(Get(dhcp, "mac-address"))
    ensures MergedData(identifier, dhcp, arp1, c, details).Ok?
    ensures MergedData(identifier, dhcp, arp2, c, details).Ok?
    ensures var v1, v2 := MergedData(identifier, dhcp, arp1, c, details).value,
                          MergedData(identifier, dhcp, arp2, c, details).value;
      && v1.ipAddress == v2.ipAddress == dhcp["address"].value
      && v1.macAddress == v2.macAddress == dhcp["mac-address"].value
      && v1.hostname == v2.hostname && v1.dhcpStatus == v2.dhcpStatus && v1.lastSeen == v2.lastSeen
      && v1.comment == v2.comment && v1.clientId == v2.clientId && v1.dhcpServer == v2.dhcpServer
      && v1.staticLease == v2.staticLease
  {
  }

  /** The ARP-sourced part of the view ignores DHCP data, except through the address and MAC precedence. */
  lemma ArpFieldsIgnoreDhcp(identifier: string, dhcp1: Fields, dhcp2: Fields, arp: Fields,
                            c: bool, details: ConflictDetails)
    requires Truthy(Get(arp, "address")) && Truthy(Get(arp, "mac-address"))
    ensures MergedData(identifier, dhcp1, arp, c, details).Ok?
    ensures MergedData(identifier, dhcp2, arp, c, details).Ok?
    ensures var v1, v2 := MergedData(identifier, dhcp1, arp, c, details).value,
                          MergedData(identifier, dhcp2, arp, c, details).value;
      && v1.interface == v2.interface && v1.arpStatus == v2.arpStatus && v1.published == v2.published
      && v1.invalid == v2.invalid && v1.dynamic == v2.dynamic
  {
  }
}

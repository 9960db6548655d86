# MikroTik device reconciliation, modelled in Dafny

This project models the core of a small MikroTik network-inventory tool.
The tool reads the router's DHCP lease table. It groups the leases by hardware
(MAC) address into one `Device` record per MAC, and attaches each MAC's ARP
entry to its record. It then reports a merged view of every record, in order
of first appearance.

A record keeps its DHCP-sourced and ARP-sourced fields in two dictionaries.
Each merge updates them in place, and every merge re-evaluates the record's
conflict state from scratch. A conflict is a disagreement between the two
sources on the IP address, or on the MAC once both are upper-cased.
Evaluation only happens once one source is fully populated.

Modules, one per concern of the source:

- `Rows` (`rows.dfy`): field values as `Option<string>`, and Python
  truthiness. Also `d.get`, `d.update`, `a or b or None`, `x or 'default'`,
  and ASCII `str.upper()`.
- `Conflicts` (`conflicts.dfy`): `EvaluateConflicts` is the conflict state
  that `_check_conflicts` leaves behind, stated as a function of the two
  maps.
- `Merge` (`merge.dfy`): `MergedData` is `get_merged_data` as a pure
  function of the record's state, with its two identity errors.
- `DeviceModel` (`device.dfy`): the class `Device`. Its fields are updated in
  place by `AddDhcpData`, `AddArpData` and `CheckConflicts`. Its invariant
  `Valid()` says the stored conflict state always equals
  `EvaluateConflicts` of the current maps.
- `Network` (`network.dfy`): the lease-grouping loop and the report loop of
  `main`.
  - The lease list and the ARP lookup are inputs. The lookup is a pure
    function from a MAC to the first matching row, if any.
  - Dict insertion order is an explicit `order` sequence.
  - `FirstSeen`, `AcceptedMacs`, `DhcpFor`, `ArpFor` and `ExpectedView` say
    what grouping produces. `GroupLeases` and `RunPass` are proved against
    them.
- `Scenarios` (`scenarios.dfy`): concrete rows run through the model.

Three behaviours of the code differ from what a reader might expect. The
model follows the code:

- **Changed ARP address.** One might expect an ARP row whose address differs
  from the lease's (10.0.0.9 against 10.0.0.5) to be reported as a conflict.
  With partial rows the code does not report it. Neither map is fully
  populated: both `comment` fields are still `None`, so `_check_conflicts`
  returns at `device.py:51-52`. `Scenarios.ChangedArpAddressScenario` proves
  this. `Scenarios.FullArpRowScenario` shows that the conflict is reported
  once the ARP row is fully populated.
- **Identity errors.** One might expect the merged view to fail only when
  both the address and the MAC are missing from both sources. The code fails
  as soon as either one is missing (`device.py:82-91`), and it checks the
  address first. `Merge.MergedData` states the code's rule, and
  `Scenarios.MissingMacAloneFails` exhibits it.
- **Per-device failures.** One might expect a device without an identity to
  be dropped while the rest of the report goes on. In the code, the `try` at
  `network.py:19` encloses the whole report loop, so the first failing device
  would end the report (`Network.RunReport`). Within `main` this never
  happens: every grouped device received an accepted lease, so its DHCP
  address is truthy and its DHCP MAC is its own MAC
  (`Network.GroupedHaveIdentity`). `Network.RunPass` therefore proves that a
  non-empty lease list always reports every device.

## Model

| member | source | states |
|---|---|---|
| Rows.FirstTruthy | python/mikrotik/device.py:82 | `a or b or None` yields the first truthy value, and `None` only when neither is truthy |
| Rows.OrDefault | python/mikrotik/device.py:95-100 | `v or 'default'` yields a truthy value verbatim and the literal otherwise; a non-empty default never yields "" |
| Rows.Update | python/mikrotik/device.py:37 | `dict.update`: keys are the union; the row's keys take the row's values and every other key keeps its own |
| Rows.UpdateIdempotent | python/mikrotik/device.py:37 | applying the same row a second time leaves the map as applying it once |
| Rows.UpperChar | python/mikrotik/device.py:65 | upper-casing a character never leaves a lower-case ASCII letter |
| Rows.Upper | python/mikrotik/device.py:65 | `str.upper()` keeps the length and leaves no lower-case ASCII letter |
| Rows.UpperAt | python/mikrotik/device.py:65 | upper-casing acts on each character independently |
| Rows.UpperIdempotent | python/mikrotik/device.py:65 | upper-casing twice equals upper-casing once |
| Rows.UpperCaseInsensitive | python/mikrotik/device.py:65 | strings that agree up to letter case upper-case to the same string |
| Rows.UpperEqIff | python/mikrotik/device.py:65 | upper-cased strings are equal exactly when the strings agree character by character up to case (both directions) |
| Conflicts.EvaluateConflicts | python/mikrotik/device.py:46-70 | only the two kinds are recorded; each is present iff evaluation ran and that check fires; each carries both sources' values as stored |
| Conflicts.OnlyIpMismatch | python/mikrotik/device.py:54-61 | with only the addresses disagreeing, the details are exactly `ip_mismatch` with both addresses |
| Conflicts.OnlyMacMismatch | python/mikrotik/device.py:63-70 | with only the MACs disagreeing, the details are exactly `mac_mismatch` with both MACs in their original case |
| Conflicts.ConflictsNeedFullSource | python/mikrotik/device.py:51-52 | any recorded conflict implies one source had every value truthy |
| Conflicts.SingleSourceNeverConflicts | python/mikrotik/device.py:51-70 | if one source has no truthy value, no conflict is ever recorded |
| Conflicts.MacCaseOnlyNeverConflicts | python/mikrotik/device.py:63-65 | MACs that differ only in letter case never give `mac_mismatch` |
| Conflicts.MacMismatchIffCaseDiffers | python/mikrotik/device.py:63-70 | once evaluated, with both MACs present, `mac_mismatch` is recorded iff the MACs differ in length or in a character beyond case |
| Conflicts.ReapplyKeepsConflicts | python/mikrotik/device.py:35-44 | re-applying the same DHCP or ARP row leaves the conflict state unchanged |
| Merge.MergedData | python/mikrotik/device.py:72-113 | the address is checked first and then the MAC; each error iff its field is missing from both sources; Ok iff both resolve; identity fields follow DHCP-over-ARP precedence and are non-empty; the three booleans hold iff the field is the exact string "false"/"true"; the conflict fields are passed through |
| Merge.DhcpFieldDefaults | python/mikrotik/device.py:94-102 | each DHCP field shows its truthy value or its literal default, and the non-empty defaults are never "" |
| Merge.ArpFieldDefaults | python/mikrotik/device.py:104-110 | each ARP field shows its truthy value or "noARP" |
| Merge.DhcpFieldsIgnoreArp | python/mikrotik/device.py:82-102 | with DHCP identity present, the DHCP-sourced part of the view does not depend on the ARP map |
| Merge.ArpFieldsIgnoreDhcp | python/mikrotik/device.py:104-110 | with ARP identity present, the ARP-sourced part of the view does not depend on the DHCP map |
| DeviceModel.InitialDhcp | python/mikrotik/device.py:10-20 | a new record's DHCP fields are all `None` |
| DeviceModel.InitialArp | python/mikrotik/device.py:21-30 | a new record's ARP fields are all `None` |
| DeviceModel.InitialHasNoConflicts | python/mikrotik/device.py:32-33 | the initial empty conflict state is the one the initial maps give |
| DeviceModel.HasConflictsIff | python/mikrotik/device.py:46-70 | the conflict flag is set iff evaluation ran and the address or the MAC check fires |
| DeviceModel.Device.constructor | python/mikrotik/device.py:6-33 | a new record has the initial maps, no conflicts, its identifier, and satisfies the invariant |
| DeviceModel.Device.AddDhcpData | python/mikrotik/device.py:35-39 | the DHCP map becomes `Update(old, lease)`, the ARP map is unchanged, the conflict state is recomputed, and the invariant is kept |
| DeviceModel.Device.AddArpData | python/mikrotik/device.py:41-44 | the ARP map becomes `Update(old, entry)`, the DHCP map is unchanged, the conflict state is recomputed, and the invariant is kept |
| DeviceModel.Device.CheckConflicts | python/mikrotik/device.py:46-70 | the imperative reset-then-check leaves exactly `EvaluateConflicts` of the current maps, and the flag agrees with it |
| DeviceModel.Device.GetMergedData | python/mikrotik/device.py:72-113 | Ok iff both identities resolve; an error names the record; the reported details are those the current maps give |
| DeviceModel.Device.HasConflicts | python/mikrotik/device.py:115-117 | true iff evaluation ran and the address or the MAC check fires on the current maps |
| DeviceModel.Device.GetConflictDetails | python/mikrotik/device.py:119-121 | the current maps' conflict details, holding only the two known kinds |
| DeviceModel.Device.GetDhcpData | python/mikrotik/device.py:123-125 | every fixed DHCP key is present |
| DeviceModel.Device.GetArpData | python/mikrotik/device.py:127-129 | every fixed ARP key is present |
| Network.AcceptedMacsBound | python/network.py:28-37 | there are never more devices than leases |
| Network.FirstSeenLists | python/network.py:35-37 | the insertion order lists each accepted MAC exactly once and nothing else |
| Network.DhcpForLastWriter | python/network.py:35-39 | a device's DHCP key holds the value of the last accepted lease for its MAC that carries the key |
| Network.DhcpForUntouched | python/network.py:35-39 | a key no lease for the MAC carries keeps its initial state |
| Network.DhcpForUnseen | python/network.py:35-37 | a MAC no accepted lease carries still has the initial DHCP fields |
| Network.GroupedHaveIdentity | python/network.py:29-39 | every grouped device's DHCP map holds a truthy address and exactly its own MAC |
| Network.GroupedViewOk | python/network.py:61-62 | a grouped device's merged view never fails, reports its own MAC, and reports its DHCP address |
| Network.DhcpOnlyNeverConflicts | python/network.py:41-47 | a device whose MAC has no ARP entry never conflicts |
| Network.SkippedLeaseChangesNothing | python/network.py:29-33 | a lease without a truthy address or MAC creates no device, adds nothing to the order, and changes no fields |
| Network.DhcpForKeys | python/mikrotik/device.py:10-20 | applying leases in order never removes one of the nine fixed DHCP keys |
| Network.ArpForKeys | python/mikrotik/device.py:21-30 | applying the ARP entry never removes one of the eight fixed ARP keys |
| Network.TrackedComplete | python/network.py:35-47 | a device in its grouped state has every fixed key, as the field getters require |
| Network.TrackedView | python/network.py:61-62 | a device holding what grouping gave it projects to `ExpectedView` |
| Network.InsertKeepsShape | python/network.py:35-37 | inserting the lease's device gives the map the keys, order and distinct devices of the longer lease list |
| Network.FindOrCreate | python/network.py:35-37 | a device is created and appended to the order only when its MAC is new; an existing one is reused with its state |
| Network.ApplyToDevice | python/network.py:38-47 | after the lease and the ARP entry (if present) are applied, the device holds what the longer lease list gives it |
| Network.ApplyAmong | python/network.py:38-47 | after applying the lease, every device in the map holds what the longer lease list gives it |
| Network.ApplyLease | python/network.py:35-47 | one accepted lease keeps the map, the order and every device in step with the lease list; only the lease's device changes or is created |
| Network.GroupLeases | python/network.py:28-47 | the order is `FirstSeen`, the keys are the accepted MACs, there are at most as many devices as leases, the devices are distinct, and each holds `DhcpFor`/`ArpFor` with its invariant and every fixed key |
| Network.RunReport | python/network.py:61-90 | views are produced in order; the report stops at the first device whose projection fails, and returns that failure instead of raising |
| Network.RunPass | python/network.py:19-90 | no leases fails the pass with `NoDHCPLeasesError` and reports nothing; otherwise every device is reported, in first-seen order, as `ExpectedView`, under its own MAC |
| Scenarios.MatchingRowsScenario | python/mikrotik/device.py:72-113 | matching DHCP and ARP rows give ip 10.0.0.5, hostname "laptop", static_lease false, interface "bridge1", and no conflict |
| Scenarios.ChangedArpAddressScenario | python/mikrotik/device.py:51-52 | with partial rows, a changed ARP address is not reported as a conflict |
| Scenarios.FullArpConflicts | python/mikrotik/device.py:54-61 | with a fully populated ARP row, the details are exactly `ip_mismatch` with 10.0.0.5 and 10.0.0.9 |
| Scenarios.FullArpRowScenario | python/mikrotik/device.py:54-61 | the laptop's merged view then reports that conflict |
| Scenarios.MissingMacAloneFails | python/mikrotik/device.py:88-91 | a DHCP address with no MAC from either source fails with the MAC error |
| Scenarios.MissingMacLeaseScenario | python/network.py:29-33 | a lease without a MAC adds no device and leaves the laptop's view unchanged |
| Scenarios.NoLeasesScenario | python/network.py:23-25 | an empty lease list fails the pass and reports nothing |
| Scenarios.ReapplyDhcpRow | python/mikrotik/device.py:35-39 | on a real record, applying a DHCP row twice leaves the same fields and conflicts as applying it once |

## Left out

- Router login, the connection, and the DHCP/ARP/bridge adapters (`login.py`, `dhcp.py`, `arp.py`, `bridge.py`) are not part of this model.
  - The lease list is a parameter of `RunPass`.
  - The ARP query by MAC is a pure function parameter returning the first match or nothing. A query that fails inside the adapter's `try` (`arp.py:46-55`) is the same as no match.
  - Without a connection, `get_arp_by_mac` first calls `connect()` outside that `try` (`arp.py:41-44`). A failed connection raises `RouterConnectionError` (`arp.py:15-16`), and the `except Exception` at `network.py:89` then ends the whole pass. Connection failures are left out along with the connection.
- The DHCP and ARP adapter constructors (`dhcp.py:8`, `arp.py:7`) take no router argument. `network.py:13-14` passes one, which would fail before the `try`. The bridge adapter (`bridge.py:12`) does accept it. This set-up code is not part of this model.
- The bridge step at `network.py:49-55` is not part of this model. It calls `add_bridge_data` on a `NetworkDevice` (`network.py:4`, `37`), and that class is defined in a file that is not part of this model. The model treats `NetworkDevice` as the `Device` of `device.py`, which has no `add_bridge_data`. It behaves as if the bridge lookup never returns an entry.
- Logging, `json.dumps`, and the formatting of the report text (`network.py:63-87`) are not modelled. The report is modelled as the sequence of merged views.
- The disconnect calls in the `finally` block (`network.py:91-96`) are I/O and are left out.
- `exceptions.py` does not define `NoDHCPLeasesError`, `NoValidIPAddressError` or `NoValidMacAddressError`. The model gives these errors their intended names. Either way, the `except Exception` at `network.py:89` catches them, logs them, and ends the pass.
- Error values carry only the device identifier, not the message text.
- Rows.Upper: only ASCII letters are upper-cased, not the full Unicode case mapping of Python's `str.upper()`.
- Field values are strings or `None`. Router rows whose values have other Python types are not modelled.
- DeviceModel.Device.GetDhcpData: the getters return values. Python returns the record's own dictionaries, and a caller could mutate them; that aliasing is not modelled.
- DeviceModel.Device.GetArpData: returns a value, not the aliased dictionary, for the same reason.
- DeviceModel.Device.GetConflictDetails: returns a value. Python returns `self._conflict_details` itself (`device.py:121`), which a caller could mutate.
- DeviceModel.Device.GetMergedData: the view's `conflictDetails` is a value. Python puts `self._conflict_details` itself into the view (`device.py:79`), so a caller could mutate the record's details through the view.

/** The Layer 2 suite: VLAN existence and state, trunk ports, spanning-tree
    mode, root bridge and port states, port-channel and LACP bundles, the MAC
    address table and LLDP neighbours. Only the `parse` calls are guarded;
    any other exception escapes the device loop and errors the test. */
module Layer2 {
  import opened Text
  import opened PyValue
  import opened Testbed
  import opened Verdicts

  datatype Issue =
    | ParseFailed
    | VlanMissing(vlan: Value)
    | VlanInactive(vlan: Value, state: string)
    | TrunkMissing(port: string)
    | NotTrunk(intf: string, mode: string)
    | ModeMismatch(mode: string, expectedMode: Value)
    | NotRoot(vlan: Value, root: Value)
    | PortStateBad(vlanKey: string, intf: string, state: string)
    | ChannelMissing(channel: Value)
    | ChannelDown(intf: string, state: string)
    | NoMembers(intf: string)
    | LacpMissing(channel: Value)
    | NoLacpPartner(intf: string)
    | MacTableEmpty
    | MacMissing(mac: Value)
    | NoLldpNeighbors
    | LldpMissing(localIntf: string)
    | LldpMismatch(intf: string, neighbor: Value, expectedNeighbor: Value)

  type Findings = seq<Finding<Issue>>

  const ActiveStates := ["active", "act/lshut"]
  const TrunkModes := ["trunk", "on", "desirable", "auto"]
  const BadPortStates := ["broken", "err-disabled"]
  const UpStates := ["up", "connected"]

  // ---------------------------------------------------------------- scopes

  /** A device carries Layer 2 expectations: it enables Layer 2 or
      spanning tree, or expects VLANs or port channels. */
  predicate IsL2Device(d: Device) {
    Truthy(CustomGet(d, "l2_enabled", Bool(false))) ||
    Truthy(CustomGet(d, "expected_vlans", List([]))) ||
    Truthy(CustomGet(d, "stp_enabled", Bool(false))) ||
    Truthy(CustomGet(d, "port_channels", List([])))
  }

  /** The common setup's device loop. */
  method MarkL2Devices(devices: seq<Device>) returns (l2: seq<Device>)
    ensures l2 == Select(devices, IsL2Device)
    ensures forall d :: d in l2 <==> (d in devices &&
      (Truthy(CustomGet(d, "l2_enabled", Bool(false))) ||
       Truthy(CustomGet(d, "expected_vlans", List([]))) ||
       Truthy(CustomGet(d, "stp_enabled", Bool(false))) ||
       Truthy(CustomGet(d, "port_channels", List([])))))
  {
    l2 := Keep(devices, IsL2Device);
  }

  /** The Layer 2 devices whose `custom` value under `key` is truthy. */
  function Having(l2: seq<Device>, key: string): (r: seq<Device>)
    ensures forall d :: d in r <==> d in l2 && key in d.custom && Truthy(d.custom[key])
  {
    Select(l2, Expects(key))
  }

  /** The test of a testcase's setup: `d.custom.get(key)` is truthy. */
  function Expects(key: string): Device -> bool {
    d => Truthy(CustomGet(d, key, Null))
  }

  // ------------------------------------------------ first interface by name

  /** `needle.lower() in name.lower()` */
  predicate NameContains(name: string, needle: string) {
    IsSubstring(Lower(needle), Lower(name))
  }

  /** The first entry whose name contains `needle`, case aside: the entry
      a search loop with a `found` flag and `break` settles on. */
  function FirstContaining(entries: seq<(string, Value)>, needle: string): (r: Option<(string, Value)>)
    ensures r.None? <==> forall i :: 0 <= i < |entries| ==> !NameContains(entries[i].0, needle)
    ensures r.Some? ==> exists i :: (0 <= i < |entries| && entries[i] == r.value &&
      NameContains(entries[i].0, needle) &&
      forall j :: 0 <= j < i ==> !NameContains(entries[j].0, needle))
  {
    if entries == [] then None
    else if NameContains(entries[0].0, needle) then Some(entries[0])
    else
      var r := FirstContaining(entries[1..], needle);
      assert forall i :: 0 < i < |entries| ==> entries[i] == entries[1..][i - 1];
      r
  }

  method FindContaining(entries: seq<(string, Value)>, needle: string) returns (r: Option<(string, Value)>)
    ensures r == FirstContaining(entries, needle)
  {
    r := None;
    var i := 0;
    while i < |entries|
      invariant 0 <= i <= |entries|
      invariant FirstContaining(entries, needle) == FirstContaining(entries[i..], needle)
    {
      if NameContains(entries[i].0, needle) {
        r := Some(entries[i]);
        break;
      }
      assert entries[i..][1..] == entries[i + 1..];
      i := i + 1;
    }
  }

  /** The first entry whose name contains `needle` is the one found. */
  lemma FirstAt(entries: seq<(string, Value)>, needle: string, i: nat)
    requires i < |entries| && NameContains(entries[i].0, needle)
    requires forall j :: 0 <= j < i ==> !NameContains(entries[j].0, needle)
    ensures FirstContaining(entries, needle) == Some(entries[i])
  {
    var r := FirstContaining(entries, needle);
    var k :| 0 <= k < |entries| && entries[k] == r.value && NameContains(entries[k].0, needle) &&
      forall j :: 0 <= j < k ==> !NameContains(entries[j].0, needle);
    assert k == i;
  }

  // ----------------------------------------------------------------- VLANs

  function VlanExistence(d: Device): Result<Findings> {
    var expected := CustomGet(d, "expected_vlans", List([]));
    match Parse(d, "show vlan")
    case Raised => Ok([Finding(d.name, ParseFailed)])
    case Ok(parsed) =>
      var vlans :- Get(parsed, "vlans", Dict([]));
      var entries :- Items(vlans);
      var existing := Keys(entries);
      var ids :- Iter(expected);
      Ok(Gather(ids, (id: Value) =>
        if StrOf(id) in existing then [] else [Finding(d.name, VlanMissing(id))]))
  }

  /** Every expected VLAN whose `str()` is not a key under `vlans` has a
      finding, and no other VLAN has one. */
  lemma VlanExistenceRule(d: Device, parsed: Value, vl: seq<(string, Value)>, ids: seq<Value>, x: Value)
    requires Parse(d, "show vlan") == Ok(parsed)
    requires Get(parsed, "vlans", Dict([])) == Ok(Dict(vl))
    requires CustomGet(d, "expected_vlans", List([])) == List(ids)
    ensures VlanExistence(d).Ok?
    ensures Finding(d.name, VlanMissing(x)) in VlanExistence(d).value <==> x in ids && StrOf(x) !in Keys(vl)
    ensures forall f :: f in VlanExistence(d).value ==> f.scope == d.name && f.issue.VlanMissing?
  {
    var f := (id: Value) => if StrOf(id) in Keys(vl) then [] else [Finding(d.name, VlanMissing(id))];
    assert VlanExistence(d) == Ok(Gather(ids, f));
    GatherMember(ids, f, Finding(d.name, VlanMissing(x)));
    forall g: Finding<Issue> | g in Gather(ids, f)
      ensures g.scope == d.name && g.issue.VlanMissing?
    {
      GatherMember(ids, f, g);
    }
  }

  /** The state check of one expected VLAN: a VLAN absent from `vlans` is
      skipped; otherwise its `state`, else its `vlan_state`, lower-cased,
      must be active. */
  function VlanStateOf(d: Device, vlans: Value, id: Value): Result<Findings> {
    var present :- In(StrOf(id), vlans);
    if !present then Ok([])
    else
      var info :- At(vlans, StrOf(id));
      var fallback :- Get(info, "vlan_state", Str(""));
      var raw :- Get(info, "state", fallback);
      var state :- LowerOf(raw);
      Ok(if state in ActiveStates then [] else [Finding(d.name, VlanInactive(id, state))])
  }

  function VlanState(d: Device): Result<Findings> {
    var expected := CustomGet(d, "expected_vlans", List([]));
    match Parse(d, "show vlan")
    case Raised => Ok([Finding(d.name, ParseFailed)])
    case Ok(parsed) =>
      var vlans :- Get(parsed, "vlans", Dict([]));
      var ids :- Iter(expected);
      GatherAll(ids, (id: Value) => VlanStateOf(d, vlans, id))
  }

  /** An absent VLAN gets no state finding; a present one is judged by its
      `state` when it has one and by `vlan_state` otherwise, and only
      "active" and "act/lshut" pass. */
  lemma VlanStateRule(d: Device, vl: seq<(string, Value)>, id: Value, info: seq<(string, Value)>, s: string)
    ensures StrOf(id) !in Keys(vl) ==> VlanStateOf(d, Dict(vl), id) == Ok([])
    ensures (Find(vl, StrOf(id)) == Some(Dict(info)) &&
      (Find(info, "state") == Some(Str(s)) ||
       (Find(info, "state") == None && Find(info, "vlan_state") == Some(Str(s))))) ==>
      VlanStateOf(d, Dict(vl), id) ==
        Ok(if Lower(s) == "active" || Lower(s) == "act/lshut" then [] else [Finding(d.name, VlanInactive(id, Lower(s)))])
  {
  }

  // ----------------------------------------------------------------- trunks

  /** One expected trunk port: the first interface whose name contains it
      must be in a trunking mode; when none does, one finding. */
  function TrunkPort(d: Device, entries: seq<(string, Value)>, port: string): Result<Findings> {
    match FirstContaining(entries, port)
    case None => Ok([Finding(d.name, TrunkMissing(port))])
    case Some(e) =>
      var raw :- Get(e.1, "mode", Str(""));
      var mode :- LowerOf(raw);
      Ok(if mode in TrunkModes then [] else [Finding(d.name, NotTrunk(e.0, mode))])
  }

  function TrunkCheck(d: Device): Result<Findings> {
    var trunks := CustomGet(d, "trunk_ports", Dict([]));
    if !Truthy(trunks) then Ok([])
    else
      match Parse(d, "show interfaces trunk")
      case Raised => Ok([])
      case Ok(parsed) =>
        var ports :- Items(trunks);
        var entries :- Items(parsed);
        GatherAll(ports, (p: (string, Value)) => TrunkPort(d, entries, p.0))
  }

  /** A port no interface name contains gets exactly one finding; otherwise
      the first such interface is judged, and only by its mode. */
  lemma TrunkPortRule(d: Device, entries: seq<(string, Value)>, port: string, i: nat, mode: string)
    requires i < |entries| && NameContains(entries[i].0, port)
    requires forall j :: 0 <= j < i ==> !NameContains(entries[j].0, port)
    requires entries[i].1.Dict? && Find(entries[i].1.entries, "mode") == Some(Str(mode))
    ensures TrunkPort(d, entries, port) ==
      Ok(if Lower(mode) in TrunkModes then [] else [Finding(d.name, NotTrunk(entries[i].0, Lower(mode)))])
  {
    FirstAt(entries, port, i);
  }

  lemma TrunkMissingRule(d: Device, entries: seq<(string, Value)>, port: string)
    requires forall i :: 0 <= i < |entries| ==> !NameContains(entries[i].0, port)
    ensures TrunkPort(d, entries, port) == Ok([Finding(d.name, TrunkMissing(port))])
  {
  }

  // ----------------------------------------------------------- spanning tree

  /** The running mode: `mode`, else `spanning_tree_mode`, lower-cased. */
  function ModeOf(parsed: Value): Result<string> {
    var fallback :- Get(parsed, "spanning_tree_mode", Str(""));
    var raw :- Get(parsed, "mode", fallback);
    LowerOf(raw)
  }

  function StpModeCheck(d: Device): Result<Findings> {
    var expected := CustomGet(d, "stp_mode", Str("rapid-pvst"));
    match Parse(d, "show spanning-tree summary")
    case Raised => Ok([Finding(d.name, ParseFailed)])
    case Ok(parsed) =>
      var mode :- ModeOf(parsed);
      var want :- LowerOf(expected);
      Ok(if IsSubstring(want, mode) then [] else [Finding(d.name, ModeMismatch(mode, expected))])
  }

  /** The expected mode, "rapid-pvst" unless configured, must occur in the
      running mode, case aside; a summary that cannot be parsed is one
      finding. */
  lemma StpModeRule(d: Device, entries: seq<(string, Value)>, mode: string)
    requires Parse(d, "show spanning-tree summary") == Ok(Dict(entries))
    requires Find(entries, "mode") == Some(Str(mode)) ||
      (Find(entries, "mode") == None && Find(entries, "spanning_tree_mode") == Some(Str(mode)))
    ensures forall want :: CustomGet(d, "stp_mode", Str("rapid-pvst")) == Str(want) ==>
      StpModeCheck(d) ==
        Ok(if IsSubstring(Lower(want), Lower(mode)) then []
           else [Finding(d.name, ModeMismatch(Lower(mode), Str(want)))])
  {
  }

  /** Without a configured mode, rapid PVST+ is expected. */
  lemma StpModeDefault(d: Device, entries: seq<(string, Value)>, mode: string)
    requires Parse(d, "show spanning-tree summary") == Ok(Dict(entries))
    requires Find(entries, "mode") == Some(Str(mode)) ||
      (Find(entries, "mode") == None && Find(entries, "spanning_tree_mode") == Some(Str(mode)))
    requires "stp_mode" !in d.custom
    ensures StpModeCheck(d) == Ok([]) <==> IsSubstring("rapid-pvst", Lower(mode))
  {
    LowerOfLower("rapid-pvst");
    StpModeRule(d, entries, mode);
  }

  lemma StpModeUnparsed(d: Device)
    requires "show spanning-tree summary" !in d.parsed
    ensures StpModeCheck(d) == Ok([Finding(d.name, ParseFailed)])
  {
  }

  /** `v.get(role, {}).get('address', '')` */
  function Address(stp: Value, role: string): Result<Value> {
    var inner :- Get(stp, role, Dict([]));
    Get(inner, "address", Str(""))
  }

  /** The key a VLAN's spanning-tree instance is looked up under:
      "vlan<id>" when present, else the bare id. */
  function RootKey(parsed: Value, id: Value): Result<string> {
    var prefixed := "vlan" + StrOf(id);
    var has :- In(prefixed, parsed);
    Ok(if has then prefixed else StrOf(id))
  }

  function RootFinding(d: Device, parsed: Value, id: Value): Result<Findings> {
    var key :- RootKey(parsed, id);
    var present :- In(key, parsed);
    if !present then Ok([])
    else
      var stp :- At(parsed, key);
      var bridge :- Address(stp, "bridge");
      var root :- Address(stp, "root");
      Ok(if Truthy(bridge) && Truthy(root) && !Equal(bridge, root)
         then [Finding(d.name, NotRoot(id, root))] else [])
  }

  function StpRootCheck(d: Device): Result<Findings> {
    var vlans := CustomGet(d, "stp_root_vlans", List([]));
    if !Truthy(vlans) then Ok([])
    else
      match Parse(d, "show spanning-tree")
      case Raised => Ok([Finding(d.name, ParseFailed)])
      case Ok(parsed) =>
        var ids :- Iter(vlans);
        GatherAll(ids, (id: Value) => RootFinding(d, parsed, id))
  }

  /** The instance under "vlan<id>" is preferred to the one under the bare
      id; the device is reported only when both its bridge and the root
      address are known and they differ. */
  lemma RootRule(d: Device, entries: seq<(string, Value)>, id: Value, stp: Value, bridge: Value, root: Value)
    requires Find(entries, if "vlan" + StrOf(id) in Keys(entries) then "vlan" + StrOf(id) else StrOf(id)) == Some(stp)
    requires Address(stp, "bridge") == Ok(bridge) && Address(stp, "root") == Ok(root)
    ensures RootFinding(d, Dict(entries), id) ==
      Ok(if Truthy(bridge) && Truthy(root) && !Equal(bridge, root) then [Finding(d.name, NotRoot(id, root))] else [])
  {
  }

  /** A VLAN with no instance under either key is not judged. */
  lemma RootAbsentRule(d: Device, entries: seq<(string, Value)>, id: Value)
    requires "vlan" + StrOf(id) !in Keys(entries) && StrOf(id) !in Keys(entries)
    ensures RootFinding(d, Dict(entries), id) == Ok([])
  {
  }

  function PortWarning(d: Device, vlanKey: string, e: (string, Value)): Result<Findings> {
    var raw :- Get(e.1, "port_state", Str(""));
    var state :- LowerOf(raw);
    Ok(if state in BadPortStates then [Finding(d.name, PortStateBad(vlanKey, e.0, state))] else [])
  }

  function VlanPortWarnings(d: Device, vlan: (string, Value)): Result<Findings> {
    var intfs :- Get(vlan.1, "interfaces", Dict([]));
    var entries :- Items(intfs);
    GatherAll(entries, (e: (string, Value)) => PortWarning(d, vlan.0, e))
  }

  /** Port states are only ever warnings; an unparsable output is skipped. */
  function PortStateCheck(d: Device): Result<Findings> {
    match Parse(d, "show spanning-tree")
    case Raised => Ok([])
    case Ok(parsed) =>
      var vlans :- Items(parsed);
      GatherAll(vlans, (v: (string, Value)) => VlanPortWarnings(d, v))
  }

  /** A port is warned about exactly when its lower-cased state is
      "broken" or "err-disabled". */
  lemma PortWarningRule(d: Device, vlanKey: string, intf: string, info: seq<(string, Value)>, s: string)
    requires Find(info, "port_state") == Some(Str(s))
    ensures PortWarning(d, vlanKey, (intf, Dict(info))).Ok?
    ensures PortWarning(d, vlanKey, (intf, Dict(info))).value != [] <==>
      Lower(s) == "broken" || Lower(s) == "err-disabled"
  {
  }

  // ---------------------------------------------------------- port channels

  function ChannelName(id: Value): string {
    "Port-channel" + StrOf(id)
  }

  function ChannelStatus(d: Device, entries: seq<(string, Value)>, id: Value): Result<Findings> {
    match FirstContaining(entries, ChannelName(id))
    case None => Ok([Finding(d.name, ChannelMissing(id))])
    case Some(e) => ChannelStatusOf(d, e)
  }

  /** The bundle interface found for a channel must be up and have members. */
  function ChannelStatusOf(d: Device, e: (string, Value)): Result<Findings> {
    var raw :- Get(e.1, "oper_status", Str(""));
    var state :- LowerOf(raw);
    var members :- Get(e.1, "members", Dict([]));
    Ok((if state in UpStates then [] else [Finding(d.name, ChannelDown(e.0, state))]) +
       (if Truthy(members) then [] else [Finding(d.name, NoMembers(e.0))]))
  }

  /** The loop over expected channels; the interface table is read only
      when there is a channel to look for. */
  function Channels(ids: seq<Value>, interfaces: Value, check: (seq<(string, Value)>, Value) -> Result<Findings>): Result<Findings> {
    if ids == [] then Ok([])
    else
      var entries :- Items(interfaces);
      GatherAll(ids, (id: Value) => check(entries, id))
  }

  function ChannelCheck(d: Device): Result<Findings> {
    var expected := CustomGet(d, "port_channels", List([]));
    match Parse(d, "show etherchannel summary")
    case Raised => Ok([Finding(d.name, ParseFailed)])
    case Ok(parsed) =>
      var interfaces :- Get(parsed, "interfaces", Dict([]));
      var ids :- Iter(expected);
      Channels(ids, interfaces, (entries, id) => ChannelStatus(d, entries, id))
  }

  /** A channel with no bundle interface naming it gets exactly one
      finding; the first bundle that names it is reported when its state is
      not up or connected and, separately, when it has no members. */
  lemma ChannelRule(d: Device, entries: seq<(string, Value)>, id: Value, i: nat, state: string, members: Value)
    requires i < |entries| && NameContains(entries[i].0, ChannelName(id))
    requires forall j :: 0 <= j < i ==> !NameContains(entries[j].0, ChannelName(id))
    requires entries[i].1.Dict? && Find(entries[i].1.entries, "oper_status") == Some(Str(state))
    requires Find(entries[i].1.entries, "members") == Some(members)
    ensures ChannelStatus(d, entries, id).Ok?
    ensures Finding(d.name, ChannelDown(entries[i].0, Lower(state))) in ChannelStatus(d, entries, id).value <==>
      Lower(state) != "up" && Lower(state) != "connected"
    ensures Finding(d.name, NoMembers(entries[i].0)) in ChannelStatus(d, entries, id).value <==> !Truthy(members)
    ensures |ChannelStatus(d, entries, id).value| <= 2
  {
    ChannelStatusAt(d, entries, id, i);
    var e := entries[i];
    assert Get(e.1, "oper_status", Str("")) == Ok(Str(state));
    assert LowerOf(Str(state)) == Ok(Lower(state));
    assert Get(e.1, "members", Dict([])) == Ok(members);
    var down := if Lower(state) in UpStates then [] else [Finding(d.name, ChannelDown(e.0, Lower(state)))];
    var empty := if Truthy(members) then [] else [Finding(d.name, NoMembers(e.0))];
    assert ChannelStatusOf(d, e) == Ok(down + empty);
  }

  lemma ChannelStatusAt(d: Device, entries: seq<(string, Value)>, id: Value, i: nat)
    requires i < |entries| && NameContains(entries[i].0, ChannelName(id))
    requires forall j :: 0 <= j < i ==> !NameContains(entries[j].0, ChannelName(id))
    ensures ChannelStatus(d, entries, id) == ChannelStatusOf(d, entries[i])
  {
    FirstAt(entries, ChannelName(id), i);
  }

  lemma ChannelMissingRule(d: Device, entries: seq<(string, Value)>, id: Value)
    requires forall i :: 0 <= i < |entries| ==> !NameContains(entries[i].0, ChannelName(id))
    ensures ChannelStatus(d, entries, id) == Ok([Finding(d.name, ChannelMissing(id))])
  {
  }

  function LacpStatus(d: Device, entries: seq<(string, Value)>, id: Value): Result<Findings> {
    match FirstContaining(entries, ChannelName(id))
    case None => Ok([Finding(d.name, LacpMissing(id))])
    case Some(e) =>
      var members :- Get(e.1, "members", Dict([]));
      Ok(if Truthy(members) then [] else [Finding(d.name, NoLacpPartner(e.0))])
  }

  function LacpCheck(d: Device): Result<Findings> {
    var channels := CustomGet(d, "lacp_port_channels", List([]));
    if !Truthy(channels) then Ok([])
    else
      match Parse(d, "show lacp neighbor")
      case Raised => Ok([])
      case Ok(parsed) =>
        var interfaces :- Get(parsed, "interfaces", Dict([]));
        var ids :- Iter(channels);
        Channels(ids, interfaces, (entries, id) => LacpStatus(d, entries, id))
  }

  /** Only the LACP channels are looked at, an unparsable neighbour table
      is passed over, and a bundle is reported exactly when its first
      matching interface has no members. */
  lemma LacpRule(d: Device, entries: seq<(string, Value)>, id: Value, i: nat, members: Value)
    requires i < |entries| && NameContains(entries[i].0, ChannelName(id))
    requires forall j :: 0 <= j < i ==> !NameContains(entries[j].0, ChannelName(id))
    requires entries[i].1.Dict? && Find(entries[i].1.entries, "members") == Some(members)
    ensures !Truthy(CustomGet(d, "lacp_port_channels", List([]))) ==> LacpCheck(d) == Ok([])
    ensures "show lacp neighbor" !in d.parsed ==> LacpCheck(d) == Ok([])
    ensures LacpStatus(d, entries, id) == Ok(if Truthy(members) then [] else [Finding(d.name, NoLacpPartner(entries[i].0))])
  {
    FirstAt(entries, ChannelName(id), i);
  }

  // --------------------------------------------------------------- MAC table

  function MacTableCheck(d: Device): Result<Findings> {
    match Parse(d, "show mac address-table")
    case Raised => Ok([Finding(d.name, ParseFailed)])
    case Ok(parsed) =>
      var table :- Get(parsed, "mac_table", Dict([]));
      var total :- Get(table, "total_mac_addresses", Int(0));
      Ok(if Equal(total, Int(0)) then [Finding(d.name, MacTableEmpty)] else [])
  }

  /** The table is reported empty exactly when its count is the number
      zero (0, 0.0 or False compare equal to 0); a missing count is zero. */
  lemma MacTableRule(d: Device, parsed: Value, table: seq<(string, Value)>, total: Value)
    requires Parse(d, "show mac address-table") == Ok(parsed)
    requires Get(parsed, "mac_table", Dict([])) == Ok(Dict(table))
    requires Get(Dict(table), "total_mac_addresses", Int(0)) == Ok(total)
    ensures MacTableCheck(d).Ok?
    ensures MacTableCheck(d).value != [] <==> Centi(total) == Some(0)
    ensures "total_mac_addresses" !in Keys(table) ==> MacTableCheck(d).value == [Finding(d.name, MacTableEmpty)]
  {
  }

  /** `mac.lower().replace('.', '').replace(':', '')` */
  function NormalizeMac(s: string): (r: string)
    ensures forall c :: c in r <==> c in Lower(s) && c != '.' && c != ':'
  {
    var dotless := ReplaceAll(Lower(s), ".", "");
    DeleteChar(Lower(s), '.');
    DeleteChar(dotless, ':');
    ReplaceAll(dotless, ":", "")
  }

  /** A separator anywhere in an address does not change its normal form. */
  lemma MacSeparatorIgnored(a: string, b: string, sep: char)
    requires sep == '.' || sep == ':'
    ensures NormalizeMac(a + [sep] + b) == NormalizeMac(a + b)
  {
    LowerConcat(a + [sep], b);
    LowerConcat(a, [sep]);
    LowerConcat(a, b);
    var la, lb := Lower(a), Lower(b);
    assert Lower([sep]) == [sep];
    DeleteCharConcat(la + [sep], lb, '.');
    DeleteCharConcat(la, [sep], '.');
    DeleteCharConcat(la, lb, '.');
    var da, db := ReplaceAll(la, ".", ""), ReplaceAll(lb, ".", "");
    if sep == '.' {
      assert ReplaceAll([sep], ".", "") == [];
      assert da + [] + db == da + db;
    } else {
      assert ReplaceAll([sep], ".", "") == [sep];
      DeleteCharConcat(da + [sep], db, ':');
      DeleteCharConcat(da, [sep], ':');
      DeleteCharConcat(da, db, ':');
      assert ReplaceAll([sep], ":", "") == [];
    }
  }

  /** Letter case does not change an address's normal form. */
  lemma MacCaseIgnored(s: string)
    ensures NormalizeMac(Upper(s)) == NormalizeMac(s)
  {
    LowerOfUpper(s);
  }

  /** The MAC addresses a table lists under one VLAN. */
  function VlanMacs(vlan: (string, Value)): Result<seq<string>> {
    var macs :- Get(vlan.1, "mac_addresses", Dict([]));
    var entries :- Items(macs);
    Ok(Keys(entries))
  }

  /** Every address the table lists, VLAN by VLAN. */
  function TableMacs(parsed: Value): Result<seq<string>> {
    var table :- Get(parsed, "mac_table", Dict([]));
    var vlans :- Get(table, "vlans", Dict([]));
    var entries :- Items(vlans);
    GatherAll(entries, VlanMacs)
  }

  /** The normal forms of the learned addresses. */
  function Learned(macs: seq<string>): set<string> {
    set m | m in macs :: NormalizeMac(m)
  }

  /** The loop that fills the `learned_macs` set. */
  method LearnMacs(macs: seq<string>) returns (learned: set<string>)
    ensures learned == Learned(macs)
    ensures forall m :: m in macs ==> NormalizeMac(m) in learned
  {
    learned := {};
    for i := 0 to |macs|
      invariant learned == Learned(macs[..i])
    {
      assert macs[..i + 1] == macs[..i] + [macs[i]];
      learned := learned + {NormalizeMac(macs[i])};
    }
    assert macs[..|macs|] == macs;
  }

  function MacFinding(d: Device, learned: set<string>, mac: Value): Result<Findings> {
    match mac
    case Str(s) => Ok(if NormalizeMac(s) in learned then [] else [Finding(d.name, MacMissing(mac))])
    case _ => Raised
  }

  function ExpectedMacCheck(d: Device): Result<Findings> {
    var expected := CustomGet(d, "expected_macs", List([]));
    if !Truthy(expected) then Ok([])
    else
      match Parse(d, "show mac address-table")
      case Raised => Ok([Finding(d.name, ParseFailed)])
      case Ok(parsed) =>
        var macs :- TableMacs(parsed);
        var learned := Learned(macs);
        var wanted :- Iter(expected);
        GatherAll(wanted, (m: Value) => MacFinding(d, learned, m))
  }

  /** An expected address is reported exactly when no learned address has
      the same normal form, so separators and case never matter. */
  lemma ExpectedMacRule(d: Device, parsed: Value, macs: seq<string>, wanted: seq<string>, m: string)
    requires CustomGet(d, "expected_macs", List([])) == List(Strs(wanted)) && wanted != []
    requires Parse(d, "show mac address-table") == Ok(parsed) && TableMacs(parsed) == Ok(macs)
    ensures ExpectedMacCheck(d).Ok?
    ensures Finding(d.name, MacMissing(Str(m))) in ExpectedMacCheck(d).value <==>
      m in wanted && forall k :: k in macs ==> NormalizeMac(k) != NormalizeMac(m)
  {
    var learned := Learned(macs);
    var f := (v: Value) => MacFinding(d, learned, v);
    var values := Strs(wanted);
    assert forall i :: 0 <= i < |values| ==> f(values[i]).Ok?;
    GatherAllOk(values, f);
    assert ExpectedMacCheck(d) == GatherAll(values, f);
    GatherAllMember(values, f, Finding(d.name, MacMissing(Str(m))));
    if m in wanted {
      var i :| 0 <= i < |wanted| && wanted[i] == m;
      assert values[i] == Str(m);
    }
  }

  /** A loop none of whose steps raises does not raise. */
  lemma {:induction false} GatherAllOk<T, I>(ds: seq<T>, f: T -> Result<seq<I>>)
    requires forall i :: 0 <= i < |ds| ==> f(ds[i]).Ok?
    ensures GatherAll(ds, f).Ok?
  {
    if ds != [] {
      var front := ds[..|ds| - 1];
      assert forall i :: 0 <= i < |front| ==> front[i] == ds[i];
      GatherAllOk(front, f);
    }
  }

  // ------------------------------------------------------------------- LLDP

  /** The detailed neighbour table, else the brief one. */
  function LldpTable(d: Device): Result<Value> {
    match Parse(d, "show lldp neighbors detail")
    case Ok(parsed) => Ok(parsed)
    case Raised => Parse(d, "show lldp neighbors")
  }

  /** A neighbour's name: `system_name`, else `chassis_id`. */
  function NeighborName(info: Value): Result<Value> {
    var fallback :- Get(info, "chassis_id", Str(""));
    Get(info, "system_name", fallback)
  }

  function NeighborMismatch(d: Device, intf: string, expected: Value, n: (string, Value)): Result<Findings> {
    var name :- NeighborName(n.1);
    var want :- LowerOf(expected);
    var have :- LowerOf(name);
    Ok(if IsSubstring(want, have) then [] else [Finding(d.name, LldpMismatch(intf, name, expected))])
  }

  /** One expected neighbour: the first interface whose name contains the
      local interface is judged on every neighbour it lists. */
  function LldpInterface(d: Device, entries: seq<(string, Value)>, local: (string, Value)): Result<Findings> {
    match FirstContaining(entries, local.0)
    case None => Ok([Finding(d.name, LldpMissing(local.0))])
    case Some(e) =>
      var fallback :- Get(e.1, "port_id", Dict([]));
      var neighbors :- Get(e.1, "neighbors", fallback);
      if neighbors.Dict? then
        GatherAll(neighbors.entries, (n: (string, Value)) => NeighborMismatch(d, e.0, local.1, n))
      else Ok([])
  }

  function LldpCheck(d: Device): Result<Findings> {
    var expected := CustomGet(d, "lldp_neighbors", Dict([]));
    match LldpTable(d)
    case Raised => Ok([Finding(d.name, ParseFailed)])
    case Ok(parsed) =>
      var total :- Get(parsed, "total_entries", Int(0));
      var interfaces :- Get(parsed, "interfaces", Dict([]));
      if Equal(total, Int(0)) && Truthy(expected) then Ok([Finding(d.name, NoLldpNeighbors)])
      else
        var locals :- Items(expected);
        if locals == [] then Ok([])
        else
          var entries :- Items(interfaces);
          GatherAll(locals, (l: (string, Value)) => LldpInterface(d, entries, l))
  }

  /** A neighbour table whose `total_entries` is 0, or absent, with
      neighbours expected is one finding, not one per expected neighbour;
      the brief table stands in for the detailed one, and a device with
      neither is one finding. */
  lemma LldpEmptyRule(d: Device, table: seq<(string, Value)>)
    requires LldpTable(d) == Ok(Dict(table)) && Equal(Get(Dict(table), "total_entries", Int(0)).value, Int(0))
    requires Truthy(CustomGet(d, "lldp_neighbors", Dict([])))
    ensures LldpCheck(d) == Ok([Finding(d.name, NoLldpNeighbors)])
    ensures "show lldp neighbors detail" !in d.parsed ==> Parse(d, "show lldp neighbors") == Ok(Dict(table))
  {
  }

  lemma LldpUnparsed(d: Device)
    requires "show lldp neighbors detail" !in d.parsed && "show lldp neighbors" !in d.parsed
    ensures LldpCheck(d) == Ok([Finding(d.name, ParseFailed)])
  {
  }

  /** A neighbour is named by its `system_name`, or its `chassis_id` when it
      has none, and matches when the expected name occurs in that name,
      case aside. */
  lemma NeighborRule(d: Device, intf: string, want: string, id: string, info: seq<(string, Value)>, name: string)
    requires Find(info, "system_name") == Some(Str(name)) ||
      (Find(info, "system_name") == None && Find(info, "chassis_id") == Some(Str(name)))
    ensures NeighborMismatch(d, intf, Str(want), (id, Dict(info))) ==
      Ok(if IsSubstring(Lower(want), Lower(name)) then []
         else [Finding(d.name, LldpMismatch(intf, Str(name), Str(want)))])
  {
  }

  /** An expected local interface no entry names gets exactly one finding. */
  lemma LldpMissingRule(d: Device, entries: seq<(string, Value)>, local: (string, Value))
    requires forall i :: 0 <= i < |entries| ==> !NameContains(entries[i].0, local.0)
    ensures LldpInterface(d, entries, local) == Ok([Finding(d.name, LldpMissing(local.0))])
  {
  }

  // ------------------------------------------------------------------ suite

  /** The outcomes of the suite's eleven tests, in order. */
  function Suite(devices: seq<Device>): (outcomes: seq<Outcome<Finding<Issue>>>)
    ensures |outcomes| == 11
  {
    var l2 := Select(devices, IsL2Device);
    var vlanDevices := Having(l2, "expected_vlans");
    var stpDevices := Having(l2, "stp_enabled");
    var channelDevices := Having(l2, "port_channels");
    var lldpDevices := Having(l2, "lldp_neighbors");
    [ FailTestOr(vlanDevices, VlanExistence),
      FailTestOr(vlanDevices, VlanState),
      FailTestOr(vlanDevices, TrunkCheck),
      FailTestOr(stpDevices, StpModeCheck),
      FailTestOr(stpDevices, StpRootCheck),
      WarnTestOr(stpDevices, PortStateCheck),
      FailTestOr(channelDevices, ChannelCheck),
      FailTestOr(channelDevices, LacpCheck),
      FailTestOr(l2, MacTableCheck),
      FailTestOr(l2, ExpectedMacCheck),
      FailTestOr(lldpDevices, LldpCheck) ]
  }

  method RunSuite(devices: seq<Device>) returns (outcomes: seq<Outcome<Finding<Issue>>>)
    ensures outcomes == Suite(devices)
  {
    var l2 := MarkL2Devices(devices);
    var vlanDevices := Keep(l2, Expects("expected_vlans"));
    var stpDevices := Keep(l2, Expects("stp_enabled"));
    var channelDevices := Keep(l2, Expects("port_channels"));
    var lldpDevices := Keep(l2, Expects("lldp_neighbors"));
    var o0 := RunFailTestOr(vlanDevices, VlanExistence);
    var o1 := RunFailTestOr(vlanDevices, VlanState);
    var o2 := RunFailTestOr(vlanDevices, TrunkCheck);
    var o3 := RunFailTestOr(stpDevices, StpModeCheck);
    var o4 := RunFailTestOr(stpDevices, StpRootCheck);
    var o5 := RunWarnTestOr(stpDevices, PortStateCheck);
    var o6 := RunFailTestOr(channelDevices, ChannelCheck);
    var o7 := RunFailTestOr(channelDevices, LacpCheck);
    var o8 := RunFailTestOr(l2, MacTableCheck);
    var o9 := RunFailTestOr(l2, ExpectedMacCheck);
    var o10 := RunFailTestOr(lldpDevices, LldpCheck);
    outcomes := [o0, o1, o2, o3, o4, o5, o6, o7, o8, o9, o10];
  }

  /** Port states never fail the suite. */
  lemma PortStatesNeverFail(devices: seq<Device>)
    ensures Suite(devices)[5].verdict != Failed
    ensures Suite(devices)[5].failures == []
  {
    var stpDevices := Having(Select(devices, IsL2Device), "stp_enabled");
    assert Suite(devices)[5] == WarnTestOr(stpDevices, PortStateCheck);
    WarnTestOrNeverFails(stpDevices, PortStateCheck);
  }

  /** The MAC tests are skipped exactly when no device carries Layer 2
      expectations. */
  lemma MacTestsSkipped(devices: seq<Device>)
    ensures Suite(devices)[8].verdict == Skipped <==> forall d :: d in devices ==> !IsL2Device(d)
    ensures Suite(devices)[9].verdict == Skipped <==> forall d :: d in devices ==> !IsL2Device(d)
  {
    var l2 := Select(devices, IsL2Device);
    assert Suite(devices)[8] == FailTestOr(l2, MacTableCheck);
    assert Suite(devices)[9] == FailTestOr(l2, ExpectedMacCheck);
    if l2 == [] {
      SelectEmpty(devices, IsL2Device);
    } else {
      assert l2[0] in devices && IsL2Device(l2[0]);
    }
  }
}

/** The MPLS core suite: LDP sessions, label bindings for critical prefixes,
    OSPF adjacencies of the MPLS routers, and reachability of the P routers'
    loopbacks from every PE router. */
module MplsCore {
  import opened Text
  import opened PyValue
  import opened Testbed
  import opened Verdicts
  import opened Shapes
  import OspfHealth

  /** What a test reports about a device (for pings, about a source PE router). */
  datatype Issue =
    | LdpNeighborsMissing(missingPeers: set<Value>, operational: seq<string>)
    | NoForwardingEntries
    | LabelsMissing(missingLabels: seq<Value>)
    | OspfNeighborsMissing(missingNeighbors: set<Value>, full: seq<string>)
    | PingFailed(target: string, targetIp: string)
    | PingRaised(target: string, targetIp: string)
    | CheckError

  // ------------------------------------------------------------------ roles

  const MplsRoles: seq<string> := ["P", "PE", "P-PE"]
  const TransitRoles: seq<string> := ["P", "P-PE"]
  const EdgeRoles: seq<string> := ["PE", "P-PE"]

  function Role(d: Device): Value {
    CustomGet(d, "mpls_role", Null)
  }

  predicate IsMplsRouter(d: Device) {
    Member(Role(d), Strs(MplsRoles))
  }

  /** A P router: a target of the loopback test. */
  predicate IsPRouter(d: Device) {
    Member(Role(d), Strs(TransitRoles))
  }

  /** A PE router: a source of the loopback test. */
  predicate IsPeRouter(d: Device) {
    Member(Role(d), Strs(EdgeRoles))
  }

  /** The role test is exact string membership: no other value is Python-equal
      to one of the role names. */
  lemma RoleRule(d: Device)
    ensures IsMplsRouter(d) <==> Role(d).Str? && Role(d).s in MplsRoles
    ensures IsPRouter(d) <==> Role(d).Str? && Role(d).s in TransitRoles
    ensures IsPeRouter(d) <==> Role(d).Str? && Role(d).s in EdgeRoles
    ensures IsPRouter(d) || IsPeRouter(d) ==> IsMplsRouter(d)
  {
    MemberStrs(Role(d), MplsRoles);
    MemberStrs(Role(d), TransitRoles);
    MemberStrs(Role(d), EdgeRoles);
  }

  /** The setup subsection that lists the MPLS routers, in testbed order. */
  method MarkMplsRouters(testbed: seq<Device>) returns (routers: seq<Device>)
    ensures routers == Select(testbed, IsMplsRouter)
    ensures forall d :: d in routers <==> d in testbed && Role(d).Str? && Role(d).s in MplsRoles
  {
    routers := Keep(testbed, IsMplsRouter);
    forall d | d in testbed {
      RoleRule(d);
    }
  }

  // -------------------------------------------------------------------- LDP

  const PeerShape: seq<Step> := [Each("vrf"), Each("peers")]

  /** `ls_data.get('state', '').lower()` */
  function LabelSpaceState(ls: (string, Value)): Result<string> {
    var state :- Get(ls.1, "state", Str(""));
    LowerOf(state)
  }

  /** Whether the label spaces, read in order up to the first that is
      operational, hold one in state "oper". */
  function FirstOper(spaces: seq<(string, Value)>): Result<bool> {
    if spaces == [] then Ok(false)
    else
      var state :- LabelSpaceState(spaces[0]);
      if state == "oper" then Ok(true) else FirstOper(spaces[1..])
  }

  /** The label-space loop of one peer, leaving at the first "oper". */
  method FindOperational(spaces: seq<(string, Value)>) returns (r: Result<bool>)
    ensures r == FirstOper(spaces)
  {
    var oper := false;
    var i := 0;
    while i < |spaces|
      invariant 0 <= i <= |spaces|
      invariant FirstOper(spaces) == if oper then Ok(true) else FirstOper(spaces[i..])
      invariant oper ==> i < |spaces|
    {
      assert spaces[i..][1..] == spaces[i + 1..];
      var state := LabelSpaceState(spaces[i]);
      if state.Raised? {
        return Raised;
      }
      if state.value == "oper" {
        oper := true;
        break;
      }
      i := i + 1;
    }
    return Ok(oper);
  }

  /** The peer's id if one of its label spaces is operational. A peer
      without `label_space_id` is not operational; one whose label spaces
      cannot be read ends the device's check. */
  function OperationalPeer(peer: (string, Value)): Partial<string> {
    match Level(peer.1, Each("label_space_id"))
    case Raised => Partial([], false)
    case Ok(spaces) =>
      match FirstOper(spaces)
      case Raised => Partial([], false)
      case Ok(oper) => Partial(if oper then [peer.0] else [], true)
  }

  function OperationalPeers(output: Value): Partial<string> {
    Visit(Walk(output, PeerShape), OperationalPeer)
  }

  /** `verify_ldp_neighbors` for one device. */
  function LdpCheck(d: Device): seq<Finding<Issue>> {
    var expected := CustomGet(d, "ldp_neighbors", List([]));
    if !Truthy(expected) then []
    else
      match Parse(d, "show mpls ldp neighbor")
      case Raised => [Finding(d.name, CheckError)]
      case Ok(output) =>
        var ops := OperationalPeers(output);
        if !ops.complete then [Finding(d.name, CheckError)]
        else
          match SetMinus(expected, ops.items)
          case Raised => [Finding(d.name, CheckError)]
          case Ok(missing) =>
            if missing == {} then [] else [Finding(d.name, LdpNeighborsMissing(missing, ops.items))]
  }

  /** With every label space readable, a peer is operational exactly when
      one of its label spaces is in state "oper", ignoring case. */
  lemma {:induction false} FirstOperRule(spaces: seq<(string, Value)>)
    requires forall i :: 0 <= i < |spaces| ==> LabelSpaceState(spaces[i]).Ok?
    ensures FirstOper(spaces).Ok?
    ensures FirstOper(spaces).value <==> exists i :: 0 <= i < |spaces| && LabelSpaceState(spaces[i]) == Ok("oper")
  {
    if spaces != [] {
      FirstOperRule(spaces[1..]);
      if LabelSpaceState(spaces[0]) != Ok("oper") {
        if exists i :: 0 <= i < |spaces| && LabelSpaceState(spaces[i]) == Ok("oper") {
          var i :| 0 <= i < |spaces| && LabelSpaceState(spaces[i]) == Ok("oper");
          assert spaces[1..][i - 1] == spaces[i];
        }
      }
    }
  }

  /** The loop leaves at the first operational label space: whatever follows
      it, even a label space that cannot be read, is never looked at. */
  lemma {:induction false} FirstOperStops(spaces: seq<(string, Value)>, k: nat)
    requires k < |spaces| && LabelSpaceState(spaces[k]) == Ok("oper")
    requires forall i :: 0 <= i < k ==> LabelSpaceState(spaces[i]).Ok?
    ensures FirstOper(spaces) == Ok(true)
  {
    if k > 0 {
      FirstOperStops(spaces[1..], k - 1);
    }
  }

  /** With a list of expected peer ids and a payload read without error, the
      device has a finding exactly when some expected peer is not
      operational, and the finding names exactly those peers: operational
      peers nobody expected are never reported. */
  lemma LdpMissingRule(d: Device, expected: seq<string>, output: Value)
    requires CustomGet(d, "ldp_neighbors", List([])) == List(Strs(expected)) && expected != []
    requires Parse(d, "show mpls ldp neighbor") == Ok(output) && OperationalPeers(output).complete
    ensures LdpCheck(d) == [] <==> forall n :: n in expected ==> n in OperationalPeers(output).items
    ensures LdpCheck(d) != [] ==>
      var ops := OperationalPeers(output).items;
      LdpCheck(d) == [Finding(d.name, LdpNeighborsMissing(set n | n in expected && n !in ops :: Str(n), ops))]
  {
    var ops := OperationalPeers(output).items;
    SetMinusStrs(expected, ops);
    if exists n :: n in expected && n !in ops {
      var n :| n in expected && n !in ops;
      assert Str(n) in set m | m in expected && m !in ops :: Str(m);
    }
  }

  /** Devices with no expected LDP peers are passed over: if no router in
      scope has any, the LDP test cannot fail. */
  lemma LdpSkipsUnconfigured(routers: seq<Device>)
    requires forall i :: 0 <= i < |routers| ==> !Truthy(CustomGet(routers[i], "ldp_neighbors", List([])))
    ensures FailTest(routers, LdpCheck).verdict != Failed
    ensures routers != [] ==> FailTest(routers, LdpCheck).verdict == Passed
  {
    GatherEmpty(routers, LdpCheck);
  }

  // ----------------------------------------------------------------- labels

  /** vrf -> local label -> outgoing label -> prefix keys */
  const LabelShape: seq<Step> :=
    [Each("vrf"), Each("local_label"), Within("outgoing_label_or_vc"), Each("prefix_or_tunnel_id")]

  /** The prefix keys read in order, up to the first one that starts with the
      prefix stripped of trailing slashes; a prefix that is not text raises
      at the first key. */
  function SearchLabels(prefix: Value, keys: seq<(string, Value)>): Result<bool> {
    if keys == [] then Ok(false)
    else
      match prefix
      case Str(p) =>
        if StartsWith(keys[0].0, RStrip(p, '/')) then Ok(true) else SearchLabels(prefix, keys[1..])
      case _ => Raised
  }

  /** Below a label: `label_data.get('outgoing_label_or_vc', {})`, then the
      prefix keys of each outgoing entry. */
  const LabelTail: seq<Step> := [Within("outgoing_label_or_vc"), Each("prefix_or_tunnel_id")]

  /** The search within one label: its prefix keys in order, up to the first
      that matches. A key found before the label's own walk would raise
      counts, since the `out_label` loop leaves at once. */
  function LabelFound(prefix: Value, name: string, data: Value): Result<bool> {
    var w := Descend(name, data, LabelTail);
    match SearchLabels(prefix, w.items)
    case Raised => Raised
    case Ok(found) => if found then Ok(true) else if w.complete then Ok(false) else Raised
  }

  /** What the `for label` loop still reads of a label once the prefix has
      been found: the label's outgoing entries and the prefix keys of the
      first one, after which the `out_label` loop leaves. */
  predicate ReadRaises(data: Value) {
    match Level(data, Within("outgoing_label_or_vc"))
    case Raised => true
    case Ok(outs) => outs != [] && Level(outs[0].1, Each("prefix_or_tunnel_id")).Raised?
  }

  /** One pass of the `for label` loop body, given `found` so far. */
  function LabelStep(prefix: Value, found: bool, entry: (string, Value)): Result<bool> {
    if found then (if ReadRaises(entry.1) then Raised else Ok(true))
    else LabelFound(prefix, entry.0, entry.1)
  }

  /** The `for label` loop over one vrf's labels with its `found` flag. The
      loop has no `break` of its own: after a hit every later label of the
      vrf is still read, and one that cannot be read raises. */
  function LabelLoop(prefix: Value, labels: seq<(string, Value)>): Result<bool> {
    if labels == [] then Ok(false)
    else
      var found :- LabelLoop(prefix, labels[..|labels| - 1]);
      LabelStep(prefix, found, labels[|labels| - 1])
  }

  /** One pass of the `for vrf` loop body, reached while nothing is found. */
  function VrfStep(prefix: Value, vrf: (string, Value)): Result<bool> {
    var labels :- Level(vrf.1, Each("local_label"));
    LabelLoop(prefix, labels)
  }

  /** The `for vrf` loop: it leaves after the vrf in which the prefix was found. */
  function VrfLoop(prefix: Value, vrfs: seq<(string, Value)>): Result<bool> {
    if vrfs == [] then Ok(false)
    else
      var found :- VrfLoop(prefix, vrfs[..|vrfs| - 1]);
      if found then Ok(true) else VrfStep(prefix, vrfs[|vrfs| - 1])
  }

  lemma LabelLoopLast(prefix: Value, labels: seq<(string, Value)>, j: nat)
    requires j < |labels|
    ensures LabelLoop(prefix, labels[..j + 1]) ==
      match LabelLoop(prefix, labels[..j])
      case Raised => Raised
      case Ok(found) => LabelStep(prefix, found, labels[j])
  {
    assert labels[..j + 1][..j] == labels[..j];
  }

  lemma VrfLoopLast(prefix: Value, vrfs: seq<(string, Value)>, j: nat)
    requires j < |vrfs|
    ensures VrfLoop(prefix, vrfs[..j + 1]) ==
      match VrfLoop(prefix, vrfs[..j])
      case Raised => Raised
      case Ok(found) => if found then Ok(true) else VrfStep(prefix, vrfs[j])
  {
    assert vrfs[..j + 1][..j] == vrfs[..j];
  }

  /** The search for one prefix over `output['vrf']`. */
  function PrefixFound(prefix: Value, output: Value): Result<bool> {
    var vrfs :- Level(output, Each("vrf"));
    VrfLoop(prefix, vrfs)
  }

  /** The `out_label` and `pfx` loops of one label, over the label's walk. */
  method SearchLabel(prefix: Value, name: string, data: Value) returns (r: Result<bool>)
    ensures r == LabelFound(prefix, name, data)
  {
    var w := Descending(name, data, LabelTail);
    var found := false;
    var i := 0;
    while i < |w.items|
      invariant 0 <= i <= |w.items|
      invariant SearchLabels(prefix, w.items) == if found then Ok(true) else SearchLabels(prefix, w.items[i..])
    {
      assert w.items[i..][1..] == w.items[i + 1..];
      if !prefix.Str? {
        return Raised;
      }
      if StartsWith(w.items[i].0, RStrip(prefix.s, '/')) {
        found := true;
        break;
      }
      i := i + 1;
    }
    if found {
      return Ok(true);
    }
    r := if w.complete then Ok(false) else Raised;
  }

  /** The `for label` loop: after a hit it goes on reading the later labels. */
  method ScanLabels(prefix: Value, labels: seq<(string, Value)>) returns (r: Result<bool>)
    ensures r == LabelLoop(prefix, labels)
  {
    var found := false;
    for i := 0 to |labels|
      invariant LabelLoop(prefix, labels[..i]) == Ok(found)
    {
      LabelLoopLast(prefix, labels, i);
      var step: Result<bool>;
      if found {
        step := if ReadRaises(labels[i].1) then Raised else Ok(true);
      } else {
        step := SearchLabel(prefix, labels[i].0, labels[i].1);
      }
      assert step == LabelStep(prefix, found, labels[i]);
      if step.Raised? {
        LabelLoopRaised(prefix, labels, i + 1);
        return Raised;
      }
      found := step.value;
    }
    assert labels[..|labels|] == labels;
    r := Ok(found);
  }

  /** One pass of the `for vrf` loop body: `if 'local_label' in vrf_data`
      and the label loop under it. */
  method ScanVrf(prefix: Value, vrf: (string, Value)) returns (r: Result<bool>)
    ensures r == VrfStep(prefix, vrf)
  {
    var labels := Level(vrf.1, Each("local_label"));
    if labels.Raised? {
      return Raised;
    }
    r := ScanLabels(prefix, labels.value);
  }

  /** The search loops for one prefix, the `for vrf` loop leaving after a hit. */
  method FindLabel(prefix: Value, output: Value) returns (r: Result<bool>)
    ensures r == PrefixFound(prefix, output)
  {
    var level := Level(output, Each("vrf"));
    if level.Raised? {
      return Raised;
    }
    var vrfs := level.value;
    var found := false;
    var i := 0;
    while i < |vrfs| && !found
      invariant 0 <= i <= |vrfs|
      invariant VrfLoop(prefix, vrfs[..i]) == Ok(found)
    {
      VrfLoopLast(prefix, vrfs, i);
      var step := ScanVrf(prefix, vrfs[i]);
      if step.Raised? {
        VrfLoopSettled(prefix, vrfs, i + 1);
        return Raised;
      }
      found := step.value;
      i := i + 1;
    }
    if found {
      VrfLoopSettled(prefix, vrfs, i);
    } else {
      assert vrfs[..i] == vrfs;
    }
    r := Ok(found);
  }

  lemma {:induction false} LabelLoopRaised(prefix: Value, labels: seq<(string, Value)>, k: nat)
    requires k <= |labels| && LabelLoop(prefix, labels[..k]).Raised?
    ensures LabelLoop(prefix, labels).Raised?
    decreases |labels| - k
  {
    if k < |labels| {
      LabelLoopLast(prefix, labels, k);
      LabelLoopRaised(prefix, labels, k + 1);
    } else {
      assert labels[..k] == labels;
    }
  }

  /** Once the vrf loop has found the prefix or raised, the later vrfs are
      never looked at. */
  lemma {:induction false} VrfLoopSettled(prefix: Value, vrfs: seq<(string, Value)>, k: nat)
    requires k <= |vrfs| && VrfLoop(prefix, vrfs[..k]) != Ok(false)
    ensures VrfLoop(prefix, vrfs) == VrfLoop(prefix, vrfs[..k])
    decreases |vrfs| - k
  {
    if k < |vrfs| {
      VrfLoopLast(prefix, vrfs, k);
      VrfLoopSettled(prefix, vrfs, k + 1);
    } else {
      assert vrfs[..k] == vrfs;
    }
  }

  /** After a hit the label loop never goes back to "not found". */
  lemma {:induction false} LabelLoopSettled(prefix: Value, labels: seq<(string, Value)>, k: nat, n: nat)
    requires k <= n <= |labels| && LabelLoop(prefix, labels[..k]) == Ok(true)
    ensures LabelLoop(prefix, labels[..n]) != Ok(false)
    decreases n
  {
    if n > k {
      LabelLoopSettled(prefix, labels, k, n - 1);
      LabelLoopLast(prefix, labels, n - 1);
    }
  }

  /** A hit does not end the label loop: a later label of the same vrf that
      cannot be read makes the search raise, and the device is an error. */
  lemma ReadAfterHit(prefix: Value, labels: seq<(string, Value)>, k: nat, j: nat)
    requires k <= j < |labels| && LabelLoop(prefix, labels[..k]) == Ok(true)
    requires ReadRaises(labels[j].1)
    ensures LabelLoop(prefix, labels) == Raised
  {
    LabelLoopSettled(prefix, labels, k, j);
    LabelLoopLast(prefix, labels, j);
    LabelLoopRaised(prefix, labels, j + 1);
  }

  /** An instance: the prefix is found under label 16, but label 17 is text,
      so `label_data.get` raises and the prefix search raises. */
  lemma UnreadableLaterLabel()
    ensures
      var keys := Dict([("10.0.0.1/32", Dict([]))]);
      var label16 := Dict([("outgoing_label_or_vc", Dict([("Pop Label", Dict([("prefix_or_tunnel_id", keys)]))]))]);
      var output := Dict([("vrf", Dict([("default", Dict([("local_label", Dict([("16", label16), ("17", Str("x"))]))]))]))]);
      LabelFound(Str("10.0.0.1/32"), "16", label16) == Ok(true) &&
      PrefixFound(Str("10.0.0.1/32"), output) == Raised
  {
    var p := Str("10.0.0.1/32");
    var keys := Dict([("10.0.0.1/32", Dict([]))]);
    var label16 := Dict([("outgoing_label_or_vc", Dict([("Pop Label", Dict([("prefix_or_tunnel_id", keys)]))]))]);
    var labels := [("16", label16), ("17", Str("x"))];
    Label16Found(keys, label16);
    LabelLoopLast(p, labels, 0);
    assert labels[..0] == [];
    assert LabelLoop(p, labels[..1]) == Ok(true);
    assert ReadRaises(Str("x"));
    ReadAfterHit(p, labels, 1, 1);
    var vrfData := Dict([("local_label", Dict(labels))]);
    var vrfs := [("default", vrfData)];
    SingleKey("local_label", Dict(labels));
    assert VrfStep(p, vrfs[0]) == Raised;
    VrfLoopLast(p, vrfs, 0);
    assert vrfs[..0] == [] && vrfs[..1] == vrfs;
    SingleKey("vrf", Dict(vrfs));
  }

  lemma Label16Found(keys: Value, label16: Value)
    requires keys == Dict([("10.0.0.1/32", Dict([]))])
    requires label16 == Dict([("outgoing_label_or_vc", Dict([("Pop Label", Dict([("prefix_or_tunnel_id", keys)]))]))])
    ensures LabelFound(Str("10.0.0.1/32"), "16", label16) == Ok(true)
  {
    var outs := [("Pop Label", Dict([("prefix_or_tunnel_id", keys)]))];
    SingleKey("outgoing_label_or_vc", Dict(outs));
    SingleKey("prefix_or_tunnel_id", keys);
    assert LabelTail[1..] == [Each("prefix_or_tunnel_id")] && LabelTail[1..][1..] == [];
    DescendAllLeaves([("10.0.0.1/32", Dict([]))]);
    assert Descend(outs[0].0, outs[0].1, LabelTail[1..]) == Partial([("10.0.0.1/32", Dict([]))], true);
    assert outs[..0] == [] && DescendAll(outs[..0], LabelTail[1..]) == Partial([], true);
    assert DescendAll(outs, LabelTail[1..]).items == [] + [("10.0.0.1/32", Dict([]))];
    var w := Descend("16", label16, LabelTail);
    assert w == DescendAll(outs, LabelTail[1..]);
    assert w.items == [("10.0.0.1/32", Dict([]))];
    assert StartsWith("10.0.0.1/32", RStrip("10.0.0.1/32", '/'));
  }

  /** The critical prefixes with no label, in the order they are listed. */
  function MissingLabels(prefixes: seq<Value>, output: Value): Result<seq<Value>> {
    if prefixes == [] then Ok([])
    else
      var front :- MissingLabels(prefixes[..|prefixes| - 1], output);
      var found :- PrefixFound(prefixes[|prefixes| - 1], output);
      Ok(if found then front else front + [prefixes[|prefixes| - 1]])
  }

  /** The loop over the critical prefixes, appending each one not found. */
  method CollectMissingLabels(prefixes: seq<Value>, output: Value) returns (r: Result<seq<Value>>)
    ensures r == MissingLabels(prefixes, output)
  {
    var missing := [];
    for i := 0 to |prefixes|
      invariant MissingLabels(prefixes[..i], output) == Ok(missing)
    {
      assert prefixes[..i + 1][..i] == prefixes[..i];
      var found := FindLabel(prefixes[i], output);
      if found.Raised? {
        MissingLabelsRaised(prefixes, output, i + 1);
        return Raised;
      }
      if !found.value {
        missing := missing + [prefixes[i]];
      }
    }
    assert prefixes[..|prefixes|] == prefixes;
    r := Ok(missing);
  }

  lemma {:induction false} MissingLabelsRaised(prefixes: seq<Value>, output: Value, k: nat)
    requires k <= |prefixes| && MissingLabels(prefixes[..k], output).Raised?
    ensures MissingLabels(prefixes, output).Raised?
    decreases |prefixes| - k
  {
    if k < |prefixes| {
      assert prefixes[..k + 1][..k] == prefixes[..k];
      MissingLabelsRaised(prefixes, output, k + 1);
    } else {
      assert prefixes[..k] == prefixes;
    }
  }

  /** `verify_label_bindings` for one device. */
  function LabelCheck(d: Device): seq<Finding<Issue>> {
    var critical := CustomGet(d, "critical_prefixes", List([]));
    match Parse(d, "show mpls forwarding-table")
    case Raised => [Finding(d.name, CheckError)]
    case Ok(output) =>
      match In("vrf", output)
      case Raised => [Finding(d.name, CheckError)]
      case Ok(present) =>
        if !present then [Finding(d.name, NoForwardingEntries)]
        else
          match At(output, "vrf")
          case Raised => [Finding(d.name, CheckError)]
          case Ok(vrfs) =>
            if !Truthy(vrfs) then [Finding(d.name, NoForwardingEntries)]
            else if !Truthy(critical) then []
            else
              match Iter(critical)
              case Raised => [Finding(d.name, CheckError)]
              case Ok(prefixes) =>
                match MissingLabels(prefixes, output)
                case Raised => [Finding(d.name, CheckError)]
                case Ok(missing) => if missing == [] then [] else [Finding(d.name, LabelsMissing(missing))]
  }

  predicate Labelled(p: string, keys: seq<(string, Value)>) {
    exists i :: 0 <= i < |keys| && StartsWith(keys[i].0, RStrip(p, '/'))
  }

  lemma {:induction false} SearchLabelsRule(p: string, keys: seq<(string, Value)>)
    ensures SearchLabels(Str(p), keys) == Ok(Labelled(p, keys))
  {
    if keys != [] {
      SearchLabelsRule(p, keys[1..]);
      if Labelled(p, keys) && !StartsWith(keys[0].0, RStrip(p, '/')) {
        var i :| 0 <= i < |keys| && StartsWith(keys[i].0, RStrip(p, '/'));
        assert keys[1..][i - 1] == keys[i];
      }
    }
  }

  lemma {:induction false} LabelledConcat(p: string, a: seq<(string, Value)>, b: seq<(string, Value)>)
    ensures Labelled(p, a + b) <==> Labelled(p, a) || Labelled(p, b)
  {
    if Labelled(p, a + b) {
      var i :| 0 <= i < |a + b| && StartsWith((a + b)[i].0, RStrip(p, '/'));
      if i >= |a| {
        assert b[i - |a|] == (a + b)[i];
      }
    }
    if Labelled(p, a) {
      var i :| 0 <= i < |a| && StartsWith(a[i].0, RStrip(p, '/'));
      assert (a + b)[i] == a[i];
    }
    if Labelled(p, b) {
      var i :| 0 <= i < |b| && StartsWith(b[i].0, RStrip(p, '/'));
      assert (a + b)[|a| + i] == b[i];
    }
  }

  /** Within one label, the prefix is found exactly when a key its walk
      reaches starts with it, and is missing only when the walk ran to the end. */
  lemma LabelFoundRule(p: string, name: string, data: Value)
    ensures var w := Descend(name, data, LabelTail);
      (LabelFound(Str(p), name, data) == Ok(true) <==> Labelled(p, w.items)) &&
      (LabelFound(Str(p), name, data) == Ok(false) <==> !Labelled(p, w.items) && w.complete)
  {
    SearchLabelsRule(p, Descend(name, data, LabelTail).items);
  }

  /** A label whose walk runs to the end can be read again after a hit. */
  lemma LabelReadable(name: string, data: Value)
    requires Descend(name, data, LabelTail).complete
    ensures !ReadRaises(data)
  {
    assert LabelTail[1..] == [Each("prefix_or_tunnel_id")];
    match Level(data, Within("outgoing_label_or_vc"))
    case Raised =>
    case Ok(outs) =>
      if outs != [] {
        FirstComplete(outs, LabelTail[1..]);
      }
  }

  /** The label loop against the walk of the vrf's labels. */
  lemma {:induction false} LabelLoopRule(p: string, labels: seq<(string, Value)>)
    ensures LabelLoop(Str(p), labels) == Ok(true) ==> Labelled(p, DescendAll(labels, LabelTail).items)
    ensures LabelLoop(Str(p), labels) == Ok(false) ==>
      DescendAll(labels, LabelTail).complete && !Labelled(p, DescendAll(labels, LabelTail).items)
    ensures DescendAll(labels, LabelTail).complete ==>
      LabelLoop(Str(p), labels) == Ok(Labelled(p, DescendAll(labels, LabelTail).items))
  {
    if labels != [] {
      var front, last := labels[..|labels| - 1], labels[|labels| - 1];
      LabelLoopRule(p, front);
      var f := DescendAll(front, LabelTail);
      var l := Descend(last.0, last.1, LabelTail);
      assert DescendAll(labels, LabelTail) == if !f.complete then f else Partial(f.items + l.items, l.complete);
      LabelledConcat(p, f.items, l.items);
      LabelFoundRule(p, last.0, last.1);
      if l.complete {
        LabelReadable(last.0, last.1);
      }
    }
  }

  /** The vrf loop against the walk of the vrfs' labels. */
  lemma {:induction false} VrfLoopRule(p: string, vrfs: seq<(string, Value)>)
    ensures VrfLoop(Str(p), vrfs) == Ok(true) ==> Labelled(p, DescendAll(vrfs, LabelShape[1..]).items)
    ensures VrfLoop(Str(p), vrfs) == Ok(false) ==>
      DescendAll(vrfs, LabelShape[1..]).complete && !Labelled(p, DescendAll(vrfs, LabelShape[1..]).items)
    ensures DescendAll(vrfs, LabelShape[1..]).complete ==>
      VrfLoop(Str(p), vrfs) == Ok(Labelled(p, DescendAll(vrfs, LabelShape[1..]).items))
  {
    if vrfs != [] {
      var path := LabelShape[1..];
      assert path[0] == Each("local_label") && path[1..] == LabelTail;
      var front, last := vrfs[..|vrfs| - 1], vrfs[|vrfs| - 1];
      VrfLoopRule(p, front);
      var f := DescendAll(front, path);
      var l := Descend(last.0, last.1, path);
      assert DescendAll(vrfs, path) == if !f.complete then f else Partial(f.items + l.items, l.complete);
      LabelledConcat(p, f.items, l.items);
      match Level(last.1, Each("local_label"))
      case Raised =>
        assert !l.complete;
      case Ok(labels) =>
        assert l == DescendAll(labels, LabelTail);
        LabelLoopRule(p, labels);
    }
  }

  /** A prefix is found only when some prefix key reached by the walk starts
      with it, less its trailing slashes, and is missing only when the walk
      ran to the end without a match. Over a table read to the end, it is
      found exactly when some key starts with it. */
  lemma PrefixRule(p: string, output: Value)
    ensures PrefixFound(Str(p), output) == Ok(true) ==> Labelled(p, Walk(output, LabelShape).items)
    ensures PrefixFound(Str(p), output) == Ok(false) ==>
      Walk(output, LabelShape).complete && !Labelled(p, Walk(output, LabelShape).items)
    ensures Walk(output, LabelShape).complete ==>
      PrefixFound(Str(p), output) == Ok(Labelled(p, Walk(output, LabelShape).items))
  {
    match Level(output, Each("vrf"))
    case Raised =>
    case Ok(vrfs) =>
      assert Walk(output, LabelShape) == DescendAll(vrfs, LabelShape[1..]);
      VrfLoopRule(p, vrfs);
  }

  /** The prefixes no key starts with, in list order. */
  function Unlabelled(prefixes: seq<string>, keys: seq<(string, Value)>): (r: seq<string>)
    ensures forall p :: p in r <==> p in prefixes && !Labelled(p, keys)
  {
    if prefixes == [] then []
    else
      var front := prefixes[..|prefixes| - 1];
      var last := prefixes[|prefixes| - 1];
      assert forall p :: p in prefixes <==> p in front || p == last;
      if Labelled(last, keys) then Unlabelled(front, keys) else Unlabelled(front, keys) + [last]
  }

  /** Over a forwarding table read to the end, the missing labels are the
      listed prefixes no key starts with, in list order. */
  lemma {:induction false} MissingLabelsRule(prefixes: seq<string>, output: Value)
    requires Walk(output, LabelShape).complete
    ensures MissingLabels(Strs(prefixes), output) == Ok(Strs(Unlabelled(prefixes, Walk(output, LabelShape).items)))
  {
    if prefixes != [] {
      var keys := Walk(output, LabelShape).items;
      var front := prefixes[..|prefixes| - 1];
      var last := prefixes[|prefixes| - 1];
      assert Strs(prefixes)[..|prefixes| - 1] == Strs(front);
      MissingLabelsRule(front, output);
      PrefixRule(last, output);
      assert Strs(Unlabelled(front, keys) + [last]) == Strs(Unlabelled(front, keys)) + [Str(last)];
    }
  }

  /** A forwarding table with no `vrf`, or an empty one, is one finding and
      no prefix is searched for. */
  lemma EmptyForwardingTable(d: Device, entries: seq<(string, Value)>)
    requires Parse(d, "show mpls forwarding-table") == Ok(Dict(entries))
    requires Find(entries, "vrf") == None || (Find(entries, "vrf").Some? && !Truthy(Find(entries, "vrf").value))
    ensures LabelCheck(d) == [Finding(d.name, NoForwardingEntries)]
  {
  }

  // ------------------------------------------------------------------- OSPF

  /** `verify_ospf_neighbors` of this suite: the adjacencies are read as in
      the OSPF health suite, and the finding carries the FULL neighbors. */
  function OspfNeighborCheck(d: Device): seq<Finding<Issue>> {
    var expected := CustomGet(d, "ospf_neighbors", List([]));
    if !Truthy(expected) then []
    else
      match Parse(d, "show ip ospf neighbor")
      case Raised => [Finding(d.name, CheckError)]
      case Ok(output) =>
        var adj := OspfHealth.Adjacencies(output);
        if !adj.complete then [Finding(d.name, CheckError)]
        else
          var full := OspfHealth.FullNeighbors(adj.items);
          match SetMinus(expected, full)
          case Raised => [Finding(d.name, CheckError)]
          case Ok(missing) =>
            if missing == {} then [] else [Finding(d.name, OspfNeighborsMissing(missing, full))]
  }

  /** The two suites judge a router's OSPF neighbors alike: this suite finds
      fault with a device exactly when the OSPF health suite does, and it
      reports the same missing neighbors. */
  lemma SameNeighborRule(d: Device)
    ensures OspfNeighborCheck(d) == [] <==> OspfHealth.NeighborCheck(d) == []
    ensures |OspfNeighborCheck(d)| == |OspfHealth.NeighborCheck(d)| <= 1
    ensures OspfNeighborCheck(d) != [] ==>
      var mine, theirs := OspfNeighborCheck(d)[0].issue, OspfHealth.NeighborCheck(d)[0].issue;
      (mine.CheckError? <==> theirs.CheckError?) &&
      (mine.OspfNeighborsMissing? ==>
        theirs.NeighborsNotFull? && theirs.missing == mine.missingNeighbors && theirs.full == mine.full)
  {
  }

  // -------------------------------------------------------------- loopbacks

  /** The loop that fills `target_loopbacks`: each P router with a loopback
      address, under its name; a later router of the same name overwrites
      the address in place. */
  function Targets(pRouters: seq<Device>): seq<(string, Value)> {
    if pRouters == [] then []
    else
      var front := Targets(pRouters[..|pRouters| - 1]);
      var p := pRouters[|pRouters| - 1];
      var loopback := CustomGet(p, "loopback0_ip", Null);
      if Truthy(loopback) then Assign(front, p.name, loopback) else front
  }

  method CollectTargets(pRouters: seq<Device>) returns (targets: seq<(string, Value)>)
    ensures targets == Targets(pRouters)
  {
    targets := [];
    for i := 0 to |pRouters|
      invariant targets == Targets(pRouters[..i])
    {
      assert pRouters[..i + 1][..i] == pRouters[..i];
      var loopback := CustomGet(pRouters[i], "loopback0_ip", Null);
      if Truthy(loopback) {
        targets := Assign(targets, pRouters[i].name, loopback);
      }
    }
    assert pRouters[..|pRouters|] == pRouters;
  }

  predicate HasLoopback(p: Device) {
    Truthy(CustomGet(p, "loopback0_ip", Null))
  }

  /** The targets are the P routers with a loopback address, one entry per
      name, and each entry holds the address of a P router of that name. */
  lemma {:induction false} TargetsRule(pRouters: seq<Device>, name: string)
    ensures name in Keys(Targets(pRouters)) <==> exists i :: 0 <= i < |pRouters| && pRouters[i].name == name && HasLoopback(pRouters[i])
    ensures forall t :: t in Targets(pRouters) && t.0 == name ==>
      exists i :: 0 <= i < |pRouters| && pRouters[i].name == name && CustomGet(pRouters[i], "loopback0_ip", Null) == t.1
  {
    if pRouters != [] {
      var front := pRouters[..|pRouters| - 1];
      TargetsRule(front, name);
      assert forall i :: 0 <= i < |front| ==> front[i] == pRouters[i];
    }
  }

  /** One ping from `source` to a target: the address is the loopback's text
      before the first '/'; a loopback that is not text raises outside the
      `try`. */
  function PingTarget(source: Device, target: (string, Value)): Result<seq<Finding<Issue>>> {
    match target.1
    case Str(loopback) =>
      var ip := SplitHead(loopback, '/');
      (match Ping(source, ip)
       case Raised => Ok([Finding(source.name, PingRaised(target.0, ip))])
       case Ok(result) => Ok(if Truthy(result) then [] else [Finding(source.name, PingFailed(target.0, ip))]))
    case _ => Raised
  }

  function PingTargets(targets: seq<(string, Value)>, source: Device): Result<seq<Finding<Issue>>> {
    GatherAll(targets, t => PingTarget(source, t))
  }

  /** `verify_loopback_reachability`, with the P routers the setup selected
      from the MPLS routers, and the PE routers taken from the whole testbed. */
  function LoopbackTest(mplsRouters: seq<Device>, testbed: seq<Device>): Outcome<Finding<Issue>> {
    var pRouters := Select(mplsRouters, IsPRouter);
    if pRouters == [] then Outcome(Skipped, [], [])
    else
      var peRouters := Select(testbed, IsPeRouter);
      if peRouters == [] then Outcome(Passed, [], [])
      else
        var targets := Targets(pRouters);
        if targets == [] then Outcome(Skipped, [], [])
        else
          match GatherAll(peRouters, (source: Device) => PingTargets(targets, source))
          case Raised => Outcome(Errored, [], [])
          case Ok(failures) => Conclude(failures, [])
  }

  /** The loopback testcase as it runs: setup, then the ping loops. */
  method VerifyLoopbacks(mplsRouters: seq<Device>, testbed: seq<Device>) returns (o: Outcome<Finding<Issue>>)
    ensures o == LoopbackTest(mplsRouters, testbed)
  {
    var pRouters := Keep(mplsRouters, IsPRouter);
    if pRouters == [] {
      return Outcome(Skipped, [], []);
    }
    var peRouters := Keep(testbed, IsPeRouter);
    if peRouters == [] {
      return Outcome(Passed, [], []);
    }
    var targets := CollectTargets(pRouters);
    if targets == [] {
      return Outcome(Skipped, [], []);
    }
    var failed := CollectFindingsOr(peRouters, (source: Device) => PingTargets(targets, source));
    if failed.Raised? {
      return Outcome(Errored, [], []);
    }
    o := Conclude(failed.value, []);
  }

  /** A finding of one ping names its source, the target's name and the
      text of the target's loopback before its first '/'. */
  lemma PingTargetRule(source: Device, t: (string, Value), f: Finding<Issue>)
    requires PingTarget(source, t).Ok? && f in PingTarget(source, t).value
    ensures f.scope == source.name && (f.issue.PingFailed? || f.issue.PingRaised?)
    ensures t.1.Str? && f.issue.target == t.0 && f.issue.targetIp == SplitHead(t.1.s, '/')
  {
  }

  /** A failure of the ping loops comes from one source towards one target. */
  lemma PingLoopsRule(sources: seq<Device>, targets: seq<(string, Value)>, f: Finding<Issue>)
    requires GatherAll(sources, (source: Device) => PingTargets(targets, source)).Ok?
    requires f in GatherAll(sources, (source: Device) => PingTargets(targets, source)).value
    ensures exists s, t :: s in sources && t in targets && PingTarget(s, t).Ok? && f in PingTarget(s, t).value
  {
    var ping := (source: Device) => PingTargets(targets, source);
    GatherAllMember(sources, ping, f);
    var i :| 0 <= i < |sources| && f in ping(sources[i]).value;
    var source := sources[i];
    var pingOne := t => PingTarget(source, t);
    assert PingTargets(targets, source) == GatherAll(targets, pingOne);
    GatherAllMember(targets, pingOne, f);
    var j :| 0 <= j < |targets| && f in pingOne(targets[j]).value;
    assert source in sources && targets[j] in targets;
  }

  /** A failure of the loopback test is one ping's, from a PE router towards
      a target. */
  lemma LoopbackFailureSource(mplsRouters: seq<Device>, testbed: seq<Device>, f: Finding<Issue>)
    requires f in LoopbackTest(mplsRouters, testbed).failures
    ensures exists s, t :: (s in testbed && IsPeRouter(s) && t in Targets(Select(mplsRouters, IsPRouter)) &&
                            PingTarget(s, t).Ok? && f in PingTarget(s, t).value)
  {
    PingLoopsRule(Select(testbed, IsPeRouter), Targets(Select(mplsRouters, IsPRouter)), f);
  }

  /** Every ping failure is reported from a PE router of the testbed towards
      a P router among the MPLS routers that has a loopback address, at the
      text of that address before its first '/'. */
  lemma LoopbackFailureRule(mplsRouters: seq<Device>, testbed: seq<Device>, f: Finding<Issue>)
    requires f in LoopbackTest(mplsRouters, testbed).failures
    ensures exists s :: s in testbed && IsPeRouter(s) && s.name == f.scope
    ensures f.issue.PingFailed? || f.issue.PingRaised?
    ensures exists p :: (p in mplsRouters && IsPRouter(p) && p.name == f.issue.target &&
                         CustomGet(p, "loopback0_ip", Null).Str? &&
                         f.issue.targetIp == SplitHead(CustomGet(p, "loopback0_ip", Null).s, '/'))
  {
    var pRouters := Select(mplsRouters, IsPRouter);
    LoopbackFailureSource(mplsRouters, testbed, f);
    var s, t :| s in testbed && IsPeRouter(s) && t in Targets(pRouters) && PingTarget(s, t).Ok? && f in PingTarget(s, t).value;
    PingTargetRule(s, t, f);
    TargetsRule(pRouters, t.0);
    var k :| 0 <= k < |pRouters| && pRouters[k].name == t.0 && CustomGet(pRouters[k], "loopback0_ip", Null) == t.1;
    var p := pRouters[k];
    assert p in pRouters;
    assert p in mplsRouters && IsPRouter(p);
  }

  /** Conversely, when the ping loops run to the end, every ping from a PE
      router of the testbed to a loopback target that fails, or raises, is
      reported, under the source's name, with the target and the address
      pinged. */
  lemma LoopbackReportRule(mplsRouters: seq<Device>, testbed: seq<Device>, s: Device, t: (string, Value), loopback: string)
    requires LoopbackTest(mplsRouters, testbed).verdict != Errored
    requires s in testbed && IsPeRouter(s)
    requires t in Targets(Select(mplsRouters, IsPRouter)) && t.1 == Str(loopback)
    ensures var ip := SplitHead(loopback, '/');
      Ping(s, ip).Raised? ==> Finding(s.name, PingRaised(t.0, ip)) in LoopbackTest(mplsRouters, testbed).failures
    ensures var ip := SplitHead(loopback, '/');
      Ping(s, ip).Ok? && !Truthy(Ping(s, ip).value) ==>
        Finding(s.name, PingFailed(t.0, ip)) in LoopbackTest(mplsRouters, testbed).failures
  {
    var pRouters := Select(mplsRouters, IsPRouter);
    var peRouters := Select(testbed, IsPeRouter);
    var targets := Targets(pRouters);
    assert pRouters != [] && peRouters != [] && targets != [];
    var ping := (source: Device) => PingTargets(targets, source);
    assert GatherAll(peRouters, ping).Ok?;
    assert LoopbackTest(mplsRouters, testbed).failures == GatherAll(peRouters, ping).value;
    var ip := SplitHead(loopback, '/');
    if Ping(s, ip).Raised? || !Truthy(Ping(s, ip).value) {
      var f := Finding(s.name, if Ping(s, ip).Raised? then PingRaised(t.0, ip) else PingFailed(t.0, ip));
      assert f in PingTarget(s, t).value;
      var pingOne := t => PingTarget(s, t);
      GatherAllMember(peRouters, ping, f);
      var i :| 0 <= i < |peRouters| && peRouters[i] == s;
      assert PingTargets(targets, s) == GatherAll(targets, pingOne);
      GatherAllMember(targets, pingOne, f);
      var j :| 0 <= j < |targets| && targets[j] == t;
    }
  }

  // ------------------------------------------------------------- the suite

  /** The LDP, label and OSPF tests over the MPLS routers, then the loopback test. */
  function Suite(testbed: seq<Device>): seq<Outcome<Finding<Issue>>> {
    var routers := Select(testbed, IsMplsRouter);
    [ FailTest(routers, LdpCheck),
      FailTest(routers, LabelCheck),
      FailTest(routers, OspfNeighborCheck),
      LoopbackTest(routers, testbed) ]
  }

  method RunSuite(testbed: seq<Device>) returns (outcomes: seq<Outcome<Finding<Issue>>>)
    ensures outcomes == Suite(testbed)
  {
    var routers := MarkMplsRouters(testbed);
    var ldp := RunFailTest(routers, LdpCheck);
    var labels := RunFailTest(routers, LabelCheck);
    var ospf := RunFailTest(routers, OspfNeighborCheck);
    var loopbacks := VerifyLoopbacks(routers, testbed);
    outcomes := [ldp, labels, ospf, loopbacks];
  }

  /** The loopback test is skipped when no MPLS router is a P router. */
  lemma LoopbackSkipped(mplsRouters: seq<Device>, testbed: seq<Device>)
    requires forall d :: d in mplsRouters ==> !IsPRouter(d)
    ensures LoopbackTest(mplsRouters, testbed).verdict == Skipped
  {
    SelectEmpty(mplsRouters, IsPRouter);
  }

  /** Without an MPLS router every test is skipped; the loopback test is
      also skipped when no MPLS router is a P router. */
  lemma SkippedWithoutRouters(testbed: seq<Device>)
    ensures (forall d :: d in testbed ==> !IsMplsRouter(d)) <==>
            (forall i :: 0 <= i < |Suite(testbed)| ==> Suite(testbed)[i].verdict == Skipped)
    ensures (forall d :: d in testbed ==> !IsPRouter(d)) ==> Suite(testbed)[3].verdict == Skipped
  {
    var routers := Select(testbed, IsMplsRouter);
    var suite := Suite(testbed);
    if routers != [] {
      assert routers[0] in testbed && IsMplsRouter(routers[0]);
      assert suite[0] == FailTest(routers, LdpCheck);
      assert suite[0].verdict != Skipped;
    } else {
      LoopbackSkipped(routers, testbed);
      assert suite[3] == LoopbackTest(routers, testbed);
    }
    if forall d :: d in testbed ==> !IsPRouter(d) {
      LoopbackSkipped(routers, testbed);
      assert suite[3] == LoopbackTest(routers, testbed);
    }
  }
}

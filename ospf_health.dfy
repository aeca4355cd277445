/** The OSPF health suite: which devices it tests, and for each test the
    findings one device contributes, from that device's expectations in
    `custom` and its parsed `show ip ospf ...` / `show ip route ospf` output. */
module OspfHealth {
  import opened Text
  import opened PyValue
  import opened Testbed
  import opened Verdicts
  import opened Shapes

  datatype Issue =
    | NoProcess
    | ProcessIdMissing(expected: Value, ids: seq<string>)
    | RouterIdMissing(expected: Value, routerIds: seq<Value>)
    | HighSpfRuns(process: string, runs: Value)
    | NeighborsNotFull(missing: set<Value>, full: seq<string>, notFull: seq<Adjacency>)
    | LowDeadTime(neighbor: string, intf: string, deadTime: Value)
    | InterfacesMissing(missingInterfaces: seq<Value>, operational: seq<string>)
    | CostMismatch(intf: string, actual: Value, expected: Value)
    | EmptyDatabase
    | NoLsas
    | AreasMissing(missing: set<Value>, found: seq<string>)
    | RoutesMissing(missingRoutes: seq<Value>, found: seq<string>)
    | LowRouteCount(count: nat, minimum: Value)
      /** What an `except Exception` handler records for the device. */
    | CheckError

  /** A neighbor listed under an interface, with its upper-cased state. */
  datatype Adjacency = Adjacency(neighbor: string, state: string, intf: string)

  // ---------------------------------------------------------------- gating

  /** `mark_ospf_routers`: OSPF is enabled, or neighbors are expected. */
  predicate IsOspfRouter(d: Device) {
    Truthy(CustomGet(d, "ospf_enabled", Bool(false))) || Truthy(CustomGet(d, "ospf_neighbors", List([])))
  }

  method MarkOspfRouters(testbed: seq<Device>) returns (routers: seq<Device>)
    ensures routers == Select(testbed, IsOspfRouter)
    ensures forall d :: d in routers <==> d in testbed && IsOspfRouter(d)
  {
    routers := Keep(testbed, IsOspfRouter);
  }

  // ---------------------------------------------------------- payload shapes

  const ProcessShape: seq<Step> := [Each("vrf"), Each("address_family"), Each("instance")]
  const AreaShape: seq<Step> := ProcessShape + [Each("areas")]
  const InterfaceShape: seq<Step> := AreaShape + [Each("interfaces")]
  const LsaShape: seq<Step> := AreaShape + [One("database"), Each("lsa_types")]
  const RouteShape: seq<Step> := [Each("vrf"), Each("address_family"), Each("routes")]
  const RouteTableShape: seq<Step> := [Each("vrf"), Each("address_family"), One("routes")]

  /** The interfaces a neighbor payload lists: the flat `interfaces` shape
      when the payload has that key, otherwise the per-VRF shape. */
  function NeighborInterfaces(output: Value): Partial<(string, Value)> {
    match In("interfaces", output)
    case Raised => Partial([], false)
    case Ok(flat) => if flat then Walk(output, [Each("interfaces")]) else Walk(output, InterfaceShape)
  }

  /** `nbr_data.get('state', '').upper()` for one neighbor of `intf`. */
  function AdjacencyOf(intf: string, nbr: (string, Value)): Partial<Adjacency> {
    match Get(nbr.1, "state", Str(""))
    case Raised => Partial([], false)
    case Ok(state) =>
      match UpperOf(state)
      case Raised => Partial([], false)
      case Ok(s) => Partial([Adjacency(nbr.0, s, intf)], true)
  }

  /** The neighbors listed under one interface. */
  function AdjacenciesOf(intf: (string, Value)): Partial<Adjacency> {
    Visit(Descend(intf.0, intf.1, [Each("neighbors")]), nbr => AdjacencyOf(intf.0, nbr))
  }

  /** Every neighbor of a `show ip ospf neighbor` payload, in payload order. */
  function Adjacencies(output: Value): Partial<Adjacency> {
    Visit(NeighborInterfaces(output), AdjacenciesOf)
  }

  /** The FULL adjacency state of section 10.1 of RFC 2328, as the device
      prints it ("FULL/DR", "FULL/  -"). */
  predicate IsFull(state: string) {
    StartsWith(state, "FULL")
  }

  function FullNeighbors(adj: seq<Adjacency>): (full: seq<string>)
    ensures forall n :: n in full <==> exists a :: a in adj && a.neighbor == n && IsFull(a.state)
  {
    if adj == [] then []
    else
      var rest := FullNeighbors(adj[..|adj| - 1]);
      var a := adj[|adj| - 1];
      assert forall b :: b in adj <==> b in adj[..|adj| - 1] || b == a;
      if IsFull(a.state) then rest + [a.neighbor] else rest
  }

  function NotFull(adj: seq<Adjacency>): (r: seq<Adjacency>)
    ensures forall a :: a in r <==> a in adj && !IsFull(a.state)
  {
    Select(adj, (a: Adjacency) => !IsFull(a.state))
  }

  // -------------------------------------------------------------- the checks

  /** The `(process id, router id)` of one OSPF instance. */
  function ProcessOf(inst: (string, Value)): Partial<(string, Value)> {
    match Get(inst.1, "router_id", Str("N/A"))
    case Raised => Partial([], false)
    case Ok(rid) => Partial([(inst.0, rid)], true)
  }

  function RouterIds(procs: seq<(string, Value)>): (r: seq<Value>)
    ensures |r| == |procs| && forall i :: 0 <= i < |r| ==> r[i] == procs[i].1
  {
    seq(|procs|, i requires 0 <= i < |procs| => procs[i].1)
  }

  /** `verify_ospf_process` for one device. */
  function ProcessCheck(d: Device): (r: seq<Finding<Issue>>)
    ensures |r| <= 1
  {
    match Parse(d, "show ip ospf")
    case Raised => [Finding(d.name, CheckError)]
    case Ok(output) =>
      if !Truthy(output) then [Finding(d.name, NoProcess)]
      else
        var procs := Visit(Walk(output, ProcessShape), ProcessOf);
        if !procs.complete then [Finding(d.name, CheckError)]
        else
          var ids := Keys(procs.items);
          var rids := RouterIds(procs.items);
          var pid := CustomGet(d, "ospf_process_id", Null);
          var rid := CustomGet(d, "ospf_router_id", Null);
          if Truthy(pid) && !Member(pid, Strs(ids)) then [Finding(d.name, ProcessIdMissing(pid, ids))]
          else if Truthy(rid) && !Member(rid, rids) then [Finding(d.name, RouterIdMissing(rid, rids))]
          else []
  }

  /** An instance's router id, "N/A" when it has none. */
  function RouterIdOf(inst: (string, Value)): Value
    requires inst.1.Dict?
  {
    Get(inst.1, "router_id", Str("N/A")).value
  }

  /** Instances that are dictionaries yield one `(process id, router id)`
      each, in order, and none raises. */
  lemma ProcessesOf(insts: seq<(string, Value)>)
    requires forall i :: 0 <= i < |insts| ==> insts[i].1.Dict?
    ensures Scan(insts, ProcessOf).complete && |Scan(insts, ProcessOf).items| == |insts|
    ensures forall i :: 0 <= i < |insts| ==> Scan(insts, ProcessOf).items[i] == (insts[i].0, RouterIdOf(insts[i]))
  {
    assert forall i :: 0 <= i < |insts| ==> ProcessOf(insts[i]) == Partial([(insts[i].0, RouterIdOf(insts[i]))], true);
    ScanEach(insts, ProcessOf);
  }

  /** The expected process id is among the ids found exactly when some
      instance carries it. */
  lemma ProcessIdFound(insts: seq<(string, Value)>, pid: string)
    requires forall i :: 0 <= i < |insts| ==> insts[i].1.Dict?
    ensures Member(Str(pid), Strs(Keys(Scan(insts, ProcessOf).items))) <==> pid in Keys(insts)
  {
    ProcessesOf(insts);
    assert Keys(Scan(insts, ProcessOf).items) == Keys(insts);
    MemberStrs(Str(pid), Keys(insts));
  }

  /** The expected router id is among the ids found exactly when some
      instance reports it. */
  lemma RouterIdFound(insts: seq<(string, Value)>, rid: string)
    requires forall i :: 0 <= i < |insts| ==> insts[i].1.Dict?
    ensures Member(Str(rid), RouterIds(Scan(insts, ProcessOf).items)) <==>
      exists i :: 0 <= i < |insts| && RouterIdOf(insts[i]) == Str(rid)
  {
    ProcessesOf(insts);
  }

  /** With a process id and a router id expected as text, a device whose
      instances are read without error passes exactly when some instance has
      that process id and some instance that router id; a missing process id
      is reported alone, before the router id is looked at. */
  lemma ProcessRule(d: Device, output: Value, insts: seq<(string, Value)>, pid: string, rid: string)
    requires Parse(d, "show ip ospf") == Ok(output) && Truthy(output)
    requires Walk(output, ProcessShape) == Partial(insts, true)
    requires forall i :: 0 <= i < |insts| ==> insts[i].1.Dict?
    requires CustomGet(d, "ospf_process_id", Null) == Str(pid) && pid != []
    requires CustomGet(d, "ospf_router_id", Null) == Str(rid) && rid != []
    ensures ProcessCheck(d) == [] <==>
      pid in Keys(insts) && exists i :: 0 <= i < |insts| && RouterIdOf(insts[i]) == Str(rid)
    ensures pid !in Keys(insts) ==>
      ProcessCheck(d) == [Finding(d.name, ProcessIdMissing(Str(pid), Keys(insts)))]
  {
    ProcessesOf(insts);
    ProcessIdFound(insts, pid);
    RouterIdFound(insts, rid);
    var procs := Scan(insts, ProcessOf).items;
    assert Visit(Walk(output, ProcessShape), ProcessOf) == Partial(procs, true);
    assert Keys(procs) == Keys(insts);
    var ids := Keys(procs);
    var rids := RouterIds(procs);
    assert Truthy(Str(pid)) && Truthy(Str(rid));
    assert ProcessCheck(d) ==
      if !Member(Str(pid), Strs(ids)) then [Finding(d.name, ProcessIdMissing(Str(pid), ids))]
      else if !Member(Str(rid), rids) then [Finding(d.name, RouterIdMissing(Str(rid), rids))]
      else [];
  }

  /** The SPF warning for one instance. */
  function SpfWarning(inst: (string, Value)): Partial<Issue> {
    var runs := Get(inst.1, "spf_control", Dict([]));
    if runs.Raised? then Partial([], false)
    else
      match Get(runs.value, "spf_runs", Int(0))
      case Raised => Partial([], false)
      case Ok(n) =>
        match Greater(n, 1000)
        case Raised => Partial([], false)
        case Ok(high) => Partial(if high then [HighSpfRuns(inst.0, n)] else [], true)
  }

  /** `verify_ospf_spf_timing` for one device: warnings only, and those
      collected before an exception are kept. */
  function SpfCheck(d: Device): seq<Finding<Issue>> {
    match Parse(d, "show ip ospf")
    case Raised => []
    case Ok(output) => Scoped(d.name, Visit(Walk(output, ProcessShape), SpfWarning).items)
  }

  /** `verify_ospf_neighbors` for one device. */
  function NeighborCheck(d: Device): seq<Finding<Issue>> {
    var expected := CustomGet(d, "ospf_neighbors", List([]));
    if !Truthy(expected) then []
    else
      match Parse(d, "show ip ospf neighbor")
      case Raised => [Finding(d.name, CheckError)]
      case Ok(output) =>
        var adj := Adjacencies(output);
        if !adj.complete then [Finding(d.name, CheckError)]
        else
          var full := FullNeighbors(adj.items);
          match SetMinus(expected, full)
          case Raised => [Finding(d.name, CheckError)]
          case Ok(missing) =>
            if missing == {} then [] else [Finding(d.name, NeighborsNotFull(missing, full, NotFull(adj.items)))]
  }

  /** `int(h) * 3600 + int(m) * 60 + int(s)` of a dead time "h:m:s"; `None`
      where the text has fewer than three fields or one does not parse. */
  function DeadSeconds(t: string): Option<int> {
    var parts := Split(t, ':');
    if |parts| < 3 then None
    else
      match (ParseInt(parts[0]), ParseInt(parts[1]), ParseInt(parts[2]))
      case (Some(h), Some(m), Some(s)) => Some(h * 3600 + m * 60 + s)
      case _ => None
  }

  /** The dead-timer warning for one neighbor of `intf`. A dead time that is
      not text makes `.split` raise, which the inner handler does not catch. */
  function TimerWarning(intf: string, nbr: (string, Value)): Partial<Issue> {
    match Get(nbr.1, "dead_time", Str(""))
    case Raised => Partial([], false)
    case Ok(dt) =>
      if !Truthy(dt) then Partial([], true)
      else
        match dt
        case Str(t) =>
          var secs := DeadSeconds(t);
          Partial(if secs.Some? && secs.value < 10 then [LowDeadTime(nbr.0, intf, dt)] else [], true)
        case _ => Partial([], false)
  }

  /** `check_neighbors` on one interface. */
  function TimerWarningsOf(intf: (string, Value)): Partial<Issue> {
    Visit(Descend(intf.0, intf.1, [Each("neighbors")]), nbr => TimerWarning(intf.0, nbr))
  }

  /** `verify_ospf_neighbor_timers` for one device: warnings only. */
  function TimerCheck(d: Device): seq<Finding<Issue>> {
    match Parse(d, "show ip ospf neighbor")
    case Raised => []
    case Ok(output) => Scoped(d.name, Visit(NeighborInterfaces(output), TimerWarningsOf).items)
  }

  /** The abbreviations `_normalize_interface_name` applies, in order. */
  const Abbreviations: seq<(string, string)> := [
    ("gigabitethernet", "gi"),
    ("fastethernet", "fa"),
    ("ethernet", "eth"),
    ("tengigabitethernet", "te"),
    ("twentyfivegige", "twe"),
    ("fortygigabitethernet", "fo"),
    ("hundredgige", "hu"),
    ("loopback", "lo"),
    ("vlan", "vlan"),
    ("port-channel", "po")]

  /** The replacements applied one after the other. */
  function ReplaceEach(name: string, reps: seq<(string, string)>): string
    requires forall r :: r in reps ==> r.0 != []
    decreases |reps|
  {
    if reps == [] then name else ReplaceEach(ReplaceAll(name, reps[0].0, reps[0].1), reps[1..])
  }

  /** `_normalize_interface_name` */
  function NormalizeInterfaceName(name: string): string {
    ReplaceEach(Lower(name), Abbreviations)
  }

  /** The replacement loop: one `replace` per pair, in order. */
  method Replacing(name: string, reps: seq<(string, string)>) returns (r: string)
    requires forall p :: p in reps ==> p.0 != []
    ensures r == ReplaceEach(name, reps)
  {
    r := name;
    for i := 0 to |reps|
      invariant ReplaceEach(r, reps[i..]) == ReplaceEach(name, reps)
    {
      assert reps[i..][1..] == reps[i + 1..];
      r := ReplaceAll(r, reps[i].0, reps[i].1);
    }
  }

  /** `_normalize_interface_name` as the source runs it: lower-case, then
      one `replace` per abbreviation, in order. */
  method NormalizeInterface(name: string) returns (r: string)
    ensures r == NormalizeInterfaceName(name)
  {
    r := Replacing(Lower(name), Abbreviations);
  }

  /** `_normalize_interface_name` of a value, which raises unless it is a str. */
  function NormalizeValue(v: Value): Result<string> {
    match v
    case Str(s) => Ok(NormalizeInterfaceName(s))
    case _ => Raised
  }

  /** `[self._normalize_interface_name(i) for i in values]`, which raises
      when some value is not a str. */
  function NormalizeAll(values: seq<Value>): (r: Result<seq<string>>)
    ensures r.Ok? ==> |r.value| == |values|
  {
    if values == [] then Ok([])
    else
      var front :- NormalizeAll(values[..|values| - 1]);
      var last :- NormalizeValue(values[|values| - 1]);
      Ok(front + [last])
  }

  /** The interface name of one OSPF interface entry, when it is operational:
      enabled (by default) and not in state DOWN or DISABLED. */
  function OperationalName(intf: (string, Value)): Partial<string> {
    match Get(intf.1, "enable", Bool(true))
    case Raised => Partial([], false)
    case Ok(enable) =>
      match Get(intf.1, "state", Str(""))
      case Raised => Partial([], false)
      case Ok(state) =>
        match UpperOf(state)
        case Raised => Partial([], false)
        case Ok(s) => Partial(if Truthy(enable) && s != "DOWN" && s != "DISABLED" then [intf.0] else [], true)
  }

  /** `[self._normalize_interface_name(i) for i in names]` over names known to be text. */
  function Normalized(names: seq<string>): (r: seq<string>)
    ensures |r| == |names|
    ensures forall i :: 0 <= i < |names| ==> r[i] == NormalizeInterfaceName(names[i])
  {
    if names == [] then [] else Normalized(names[..|names| - 1]) + [NormalizeInterfaceName(names[|names| - 1])]
  }

  /** `any(n in op for op in normalized)` */
  predicate Covered(n: string, normalized: seq<string>) {
    exists op :: op in normalized && IsSubstring(n, op)
  }

  /** The expected interfaces whose normalized name (`names[i]` for
      `expected[i]`) occurs in no normalized operational name, in expected order. */
  function MissingInterfaces(expected: seq<Value>, names: seq<string>, normalized: seq<string>): seq<Value>
    requires |names| == |expected|
  {
    if expected == [] then []
    else
      var n := |expected| - 1;
      var front := MissingInterfaces(expected[..n], names[..n], normalized);
      if Covered(names[n], normalized) then front else front + [expected[n]]
  }

  /** `verify_ospf_interfaces` for one device. */
  function InterfaceCheck(d: Device): seq<Finding<Issue>> {
    var expected := CustomGet(d, "ospf_interfaces", List([]));
    if !Truthy(expected) then []
    else
      match Parse(d, "show ip ospf interface")
      case Raised => [Finding(d.name, CheckError)]
      case Ok(output) =>
        var operational := Visit(Walk(output, InterfaceShape), OperationalName);
        if !operational.complete || Iter(expected).Raised? then [Finding(d.name, CheckError)]
        else
          var values := Iter(expected).value;
          match NormalizeAll(values)
          case Raised => [Finding(d.name, CheckError)]
          case Ok(names) =>
            var missing := MissingInterfaces(values, names, Normalized(operational.items));
            if missing == [] then [] else [Finding(d.name, InterfacesMissing(missing, operational.items))]
  }

  /** The cost warning for one interface entry. */
  function CostWarning(expected: Value, intf: (string, Value)): Partial<Issue> {
    match In(intf.0, expected)
    case Raised => Partial([], false)
    case Ok(listed) =>
      if !listed then Partial([], true)
      else
        match Get(intf.1, "cost", Int(0))
        case Raised => Partial([], false)
        case Ok(actual) =>
          match At(expected, intf.0)
          case Raised => Partial([], false)
          case Ok(cost) => Partial(if Equal(actual, cost) then [] else [CostMismatch(intf.0, actual, cost)], true)
  }

  /** `verify_ospf_interface_costs` for one device: warnings only. */
  function CostCheck(d: Device): seq<Finding<Issue>> {
    var expected := CustomGet(d, "ospf_interface_costs", Dict([]));
    if !Truthy(expected) then []
    else
      match Parse(d, "show ip ospf interface")
      case Raised => []
      case Ok(output) => Scoped(d.name, Visit(Walk(output, InterfaceShape), intf => CostWarning(expected, intf)).items)
  }

  /** `len(lsa_type_data.get('lsas', {}))` for one LSA type. */
  function LsaCount(t: (string, Value)): Partial<nat> {
    match Get(t.1, "lsas", Dict([]))
    case Raised => Partial([], false)
    case Ok(lsas) =>
      match Len(lsas)
      case Raised => Partial([], false)
      case Ok(n) => Partial([n], true)
  }

  function Sum(ns: seq<nat>): nat {
    if ns == [] then 0 else Sum(ns[..|ns| - 1]) + ns[|ns| - 1]
  }

  /** `verify_ospf_database` for one device. */
  function DatabaseCheck(d: Device): (r: seq<Finding<Issue>>)
    ensures |r| <= 1
  {
    match Parse(d, "show ip ospf database")
    case Raised => [Finding(d.name, CheckError)]
    case Ok(output) =>
      if !Truthy(output) then [Finding(d.name, EmptyDatabase)]
      else
        var counts := Visit(Walk(output, LsaShape), LsaCount);
        if !counts.complete then [Finding(d.name, CheckError)]
        else if Sum(counts.items) == 0 then [Finding(d.name, NoLsas)]
        else []
  }

  /** A sum of naturals is zero exactly when every term is. */
  lemma {:induction false} SumZero(ns: seq<nat>)
    ensures Sum(ns) == 0 <==> forall i :: 0 <= i < |ns| ==> ns[i] == 0
  {
    if ns != [] {
      var front := ns[..|ns| - 1];
      SumZero(front);
      assert forall i :: 0 <= i < |front| ==> front[i] == ns[i];
    }
  }

  /** Over LSA types none of which raises, the total is zero exactly when
      every type lists no LSA. */
  lemma LsaTotal(types: seq<(string, Value)>)
    requires forall i :: 0 <= i < |types| ==> LsaCount(types[i]).complete
    ensures Scan(types, LsaCount).complete
    ensures Sum(Scan(types, LsaCount).items) == 0 <==> forall i :: 0 <= i < |types| ==> LsaCount(types[i]).items == [0]
  {
    ScanEach(types, LsaCount);
    SumZero(Scan(types, LsaCount).items);
  }

  /** A non-empty database read without error fails exactly when none of
      its LSA types, in any area of any instance, lists an LSA. */
  lemma DatabaseRule(d: Device, output: Value, types: seq<(string, Value)>)
    requires Parse(d, "show ip ospf database") == Ok(output) && Truthy(output)
    requires Walk(output, LsaShape) == Partial(types, true)
    requires forall i :: 0 <= i < |types| ==> LsaCount(types[i]).complete
    ensures DatabaseCheck(d) != [] <==> forall i :: 0 <= i < |types| ==> LsaCount(types[i]).items == [0]
    ensures DatabaseCheck(d) != [] ==> DatabaseCheck(d) == [Finding(d.name, NoLsas)]
  {
    LsaTotal(types);
  }

  /** `verify_ospf_areas` for one device. */
  function AreaCheck(d: Device): seq<Finding<Issue>> {
    var expected := CustomGet(d, "ospf_areas", List([]));
    if !Truthy(expected) then []
    else
      match Parse(d, "show ip ospf")
      case Raised => [Finding(d.name, CheckError)]
      case Ok(output) =>
        var areas := Walk(output, AreaShape);
        if !areas.complete then [Finding(d.name, CheckError)]
        else
          var found := Keys(areas.items);
          match SetMinus(expected, found)
          case Raised => [Finding(d.name, CheckError)]
          case Ok(missing) => if missing == {} then [] else [Finding(d.name, AreasMissing(missing, found))]
  }

  /** `expected_route == ospf_route or ospf_route.startswith(expected_route.split('/')[0])`
      over the routes in order, stopping at the first that matches; the
      `split` raises when the expected route is not a str. */
  function RouteFound(e: Value, routes: seq<string>): Result<bool> {
    if routes == [] then Ok(false)
    else if Equal(e, Str(routes[0])) then Ok(true)
    else
      match e
      case Str(t) => if StartsWith(routes[0], SplitHead(t, '/')) then Ok(true) else RouteFound(e, routes[1..])
      case _ => Raised
  }

  /** The expected routes not found, in expected order. */
  function MissingRoutes(expected: seq<Value>, routes: seq<string>): Result<seq<Value>> {
    if expected == [] then Ok([])
    else
      var front :- MissingRoutes(expected[..|expected| - 1], routes);
      var found :- RouteFound(expected[|expected| - 1], routes);
      Ok(if found then front else front + [expected[|expected| - 1]])
  }

  /** The route-matching loops: for each expected route, a scan of the
      routes that breaks at the first match. */
  method FindMissingRoutes(expected: seq<Value>, routes: seq<string>) returns (r: Result<seq<Value>>)
    ensures r == MissingRoutes(expected, routes)
  {
    var missing := [];
    for i := 0 to |expected|
      invariant MissingRoutes(expected[..i], routes) == Ok(missing)
    {
      assert expected[..i + 1][..i] == expected[..i];
      var e := expected[i];
      var found := false;
      var j := 0;
      while j < |routes| && !found
        invariant 0 <= j <= |routes|
        invariant RouteFound(e, routes) == if found then Ok(true) else RouteFound(e, routes[j..])
      {
        assert routes[j..][1..] == routes[j + 1..];
        if Equal(e, Str(routes[j])) {
          found := true;
        } else if !e.Str? {
          LaterRaisedMissing(expected, routes, i + 1);
          return Raised;
        } else if StartsWith(routes[j], SplitHead(e.s, '/')) {
          found := true;
        }
        j := j + 1;
      }
      if !found {
        missing := missing + [e];
      }
    }
    assert expected[..|expected|] == expected;
    r := Ok(missing);
  }

  lemma {:induction false} LaterRaisedMissing(expected: seq<Value>, routes: seq<string>, k: nat)
    requires k <= |expected| && MissingRoutes(expected[..k], routes).Raised?
    ensures MissingRoutes(expected, routes).Raised?
    decreases |expected| - k
  {
    if k < |expected| {
      assert expected[..k + 1][..k] == expected[..k];
      LaterRaisedMissing(expected, routes, k + 1);
    } else {
      assert expected[..k] == expected;
    }
  }

  /** `verify_ospf_routes` for one device. */
  function RouteCheck(d: Device): seq<Finding<Issue>> {
    var expected := CustomGet(d, "ospf_expected_routes", List([]));
    if !Truthy(expected) then []
    else
      match Parse(d, "show ip route ospf")
      case Raised => [Finding(d.name, CheckError)]
      case Ok(output) =>
        var routes := Walk(output, RouteShape);
        if !routes.complete || Iter(expected).Raised? then [Finding(d.name, CheckError)]
        else
          var found := Keys(routes.items);
          match MissingRoutes(Iter(expected).value, found)
          case Raised => [Finding(d.name, CheckError)]
          case Ok(missing) =>
            if missing == [] then []
            else [Finding(d.name, RoutesMissing(missing, found[..if |found| < 20 then |found| else 20]))]
  }

  /** `len(af_data['routes'])` for one address family. */
  function RouteTableSize(t: (string, Value)): Partial<nat> {
    match Len(t.1)
    case Raised => Partial([], false)
    case Ok(n) => Partial([n], true)
  }

  /** `verify_ospf_route_count` for one device: warnings only, but the
      `min_route_count <= 0` test sits outside the `try`, so a minimum that
      is not a number makes the whole test raise. */
  function RouteCountCheck(d: Device): Result<seq<Finding<Issue>>> {
    var minimum := CustomGet(d, "ospf_min_route_count", Int(0));
    match Centi(minimum)
    case None => Raised
    case Some(m) =>
      if m <= 0 then Ok([])
      else
        match Parse(d, "show ip route ospf")
        case Raised => Ok([])
        case Ok(output) =>
          var sizes := Visit(Walk(output, RouteTableShape), RouteTableSize);
          if !sizes.complete then Ok([])
          else if Sum(sizes.items) * 100 < m then Ok([Finding(d.name, LowRouteCount(Sum(sizes.items), minimum))])
          else Ok([])
  }

  // ------------------------------------------------------------- the suite

  /** Every test of the suite, in file order, over the routers the setup marked. */
  function Suite(testbed: seq<Device>): seq<Outcome<Finding<Issue>>> {
    Tests(Select(testbed, IsOspfRouter))
  }

  /** The ten tests over a list of routers. */
  function Tests(routers: seq<Device>): seq<Outcome<Finding<Issue>>> {
    [ FailTest(routers, ProcessCheck),
      WarnTest(routers, SpfCheck),
      FailTest(routers, NeighborCheck),
      WarnTest(routers, TimerCheck),
      FailTest(routers, InterfaceCheck),
      WarnTest(routers, CostCheck),
      FailTest(routers, DatabaseCheck),
      FailTest(routers, AreaCheck),
      FailTest(routers, RouteCheck),
      WarnTestOr(routers, RouteCountCheck) ]
  }

  /** The suite as the test runner executes it: mark the routers, then run
      each test over them. High SPF counts, low dead timers, cost mismatches
      and low route counts are only ever warnings: the second, fourth, sixth
      and tenth outcomes are never failures, whatever the testbed. */
  method RunSuite(testbed: seq<Device>) returns (outcomes: seq<Outcome<Finding<Issue>>>)
    ensures outcomes == Suite(testbed) && |outcomes| == 10
    ensures outcomes[1].verdict != Failed && outcomes[3].verdict != Failed
    ensures outcomes[5].verdict != Failed && outcomes[9].verdict != Failed
  {
    var routers := MarkOspfRouters(testbed);
    var process := RunFailTest(routers, ProcessCheck);
    var spf := RunWarnTest(routers, SpfCheck);
    var neighbors := RunFailTest(routers, NeighborCheck);
    var timers := RunWarnTest(routers, TimerCheck);
    var interfaces := RunFailTest(routers, InterfaceCheck);
    var costs := RunWarnTest(routers, CostCheck);
    var database := RunFailTest(routers, DatabaseCheck);
    var areas := RunFailTest(routers, AreaCheck);
    var routes := RunFailTest(routers, RouteCheck);
    var count := RunWarnTestOr(routers, RouteCountCheck);
    outcomes := [process, spf, neighbors, timers, interfaces, costs, database, areas, routes, count];
    TenOutcomes(process, spf, neighbors, timers, interfaces, costs, database, areas, routes, count);
  }

  /** Where the ten outcomes of a run sit in its list. */
  lemma TenOutcomes(o0: Outcome<Finding<Issue>>, o1: Outcome<Finding<Issue>>, o2: Outcome<Finding<Issue>>,
                    o3: Outcome<Finding<Issue>>, o4: Outcome<Finding<Issue>>, o5: Outcome<Finding<Issue>>,
                    o6: Outcome<Finding<Issue>>, o7: Outcome<Finding<Issue>>, o8: Outcome<Finding<Issue>>,
                    o9: Outcome<Finding<Issue>>)
    ensures var os := [o0, o1, o2, o3, o4, o5, o6, o7, o8, o9];
      |os| == 10 && os[1] == o1 && os[3] == o3 && os[5] == o5 && os[9] == o9
  {
  }

  // ------------------------------------------------------------ properties

  /** Every test is skipped exactly when no device is an OSPF router. */
  lemma SkippedWithoutRouters(testbed: seq<Device>)
    ensures (forall d :: d in testbed ==> !IsOspfRouter(d)) <==>
            (forall i :: 0 <= i < |Suite(testbed)| ==> Suite(testbed)[i].verdict == Skipped)
  {
    var routers := Select(testbed, IsOspfRouter);
    if routers != [] {
      assert routers[0] in testbed && IsOspfRouter(routers[0]);
      assert Suite(testbed)[0].verdict != Skipped;
    }
  }

  /** A payload with a top-level `interfaces` key is read through that key
      alone: whatever else it holds, a `vrf` tree included, is never looked at. */
  lemma FlatShapeFirst(entries: seq<(string, Value)>, v: Value)
    requires Find(entries, "interfaces") == Some(v)
    ensures Adjacencies(Dict(entries)) == Adjacencies(Dict([("interfaces", v)]))
  {
    var single := [("interfaces", v)];
    assert Keys(single) == ["interfaces"];
    assert Find(single, "interfaces") == Some(v);
    assert Level(Dict(entries), Each("interfaces")) == Items(v);
    assert Level(Dict(single), Each("interfaces")) == Items(v);
    assert NeighborInterfaces(Dict(entries)) == NeighborInterfaces(Dict(single));
  }

  /** Neighbor `n` has a FULL adjacency on some interface. */
  predicate FullyAdjacent(n: string, adj: seq<Adjacency>) {
    exists a :: a in adj && a.neighbor == n && IsFull(a.state)
  }

  /** With a list of expected neighbor ids and a payload read without error,
      the device has a finding exactly when some expected neighbor has no
      FULL adjacency, and it names exactly those neighbors: neighbors nobody
      expected never make the test fail. */
  lemma NeighborsMissingRule(d: Device, expected: seq<string>, output: Value)
    requires CustomGet(d, "ospf_neighbors", List([])) == List(Strs(expected)) && expected != []
    requires Parse(d, "show ip ospf neighbor") == Ok(output) && Adjacencies(output).complete
    ensures NeighborCheck(d) == [] <==> forall n :: n in expected ==> FullyAdjacent(n, Adjacencies(output).items)
    ensures NeighborCheck(d) != [] ==>
      var adj := Adjacencies(output).items;
      NeighborCheck(d) == [Finding(d.name, NeighborsNotFull(
        set n | n in expected && !FullyAdjacent(n, adj) :: Str(n), FullNeighbors(adj), NotFull(adj)))]
  {
    var adj := Adjacencies(output).items;
    var full := FullNeighbors(adj);
    SetMinusStrs(expected, full);
    var missing := set n | n in expected && !FullyAdjacent(n, adj) :: Str(n);
    assert (set n | n in expected && n !in full :: Str(n)) == missing;
    assert Truthy(List(Strs(expected))) && SetMinus(List(Strs(expected)), full) == Ok(missing);
    assert NeighborCheck(d) ==
      if missing == {} then [] else [Finding(d.name, NeighborsNotFull(missing, full, NotFull(adj)))];
    if exists n :: n in expected && !FullyAdjacent(n, adj) {
      var n :| n in expected && !FullyAdjacent(n, adj);
      assert Str(n) in missing;
    }
  }

  /** A dead time given as text never aborts the device's scan, and warns
      exactly when it reads as "h:m:s" totalling under ten seconds. */
  lemma DeadTimerRule(intf: string, nbr: string, entries: seq<(string, Value)>, t: string)
    requires Find(entries, "dead_time") == Some(Str(t))
    ensures TimerWarning(intf, (nbr, Dict(entries))).complete
    ensures TimerWarning(intf, (nbr, Dict(entries))).items != [] <==> DeadSeconds(t).Some? && DeadSeconds(t).value < 10
  {
  }

  lemma DeadSecondsOfFields(t: string, a: string, b: string, c: string, h: int, m: int, sec: int)
    requires Split(t, ':') == [a, b, c]
    requires ParseInt(a) == Some(h) && ParseInt(b) == Some(m) && ParseInt(c) == Some(sec)
    ensures DeadSeconds(t) == Some(h * 3600 + m * 60 + sec)
  {
  }

  /** "h:m:s" with decimal fields is read as `h * 3600 + m * 60 + s` seconds. */
  lemma DeadSecondsOfClock(h: nat, m: nat, s: nat)
    ensures DeadSeconds(NatDecimal(h) + ":" + NatDecimal(m) + ":" + NatDecimal(s)) == Some(h * 3600 + m * 60 + s)
  {
    var a, b, c := NatDecimal(h), NatDecimal(m), NatDecimal(s);
    NatDecimalDigits(h);
    NatDecimalDigits(m);
    NatDecimalDigits(s);
    SplitFields(a, b, c, ':');
    ParseNatDecimal(h);
    ParseNatDecimal(m);
    ParseNatDecimal(s);
    DeadSecondsOfFields(a + ":" + b + ":" + c, a, b, c, h, m, s);
  }

  /** The replacements leave a name holding none of their long forms alone. */
  lemma {:induction false} ReplaceEachAbsent(name: string, reps: seq<(string, string)>)
    requires forall r :: r in reps ==> r.0 != [] && !IsSubstring(r.0, name)
    ensures ReplaceEach(name, reps) == name
    decreases |reps|
  {
    if reps != [] {
      ReplaceAbsent(name, reps[0].0, reps[0].1);
      ReplaceEachAbsent(name, reps[1..]);
    }
  }

  /** A name without any long interface form only changes case. */
  lemma NormalizeShortName(name: string)
    requires forall r :: r in Abbreviations ==> !IsSubstring(r.0, Lower(name))
    ensures NormalizeInterfaceName(name) == Lower(name)
  {
    var lowered := Lower(name);
    assert forall r :: r in Abbreviations ==> r.0 != [];
    ReplaceEachAbsent(lowered, Abbreviations);
    assert NormalizeInterfaceName(name) == ReplaceEach(lowered, Abbreviations);
  }

  /** An expected interface is reported missing exactly when its normalized
      name occurs in no normalized operational name. */
  lemma {:induction false} MissingInterfacesRule(expected: seq<Value>, names: seq<string>, normalized: seq<string>, x: Value)
    requires |names| == |expected|
    ensures x in MissingInterfaces(expected, names, normalized) <==>
      exists i :: 0 <= i < |expected| && expected[i] == x && !Covered(names[i], normalized)
  {
    if expected != [] {
      var n := |expected| - 1;
      MissingInterfacesRule(expected[..n], names[..n], normalized, x);
      if exists i :: 0 <= i < |expected| && expected[i] == x && !Covered(names[i], normalized) {
        var i :| 0 <= i < |expected| && expected[i] == x && !Covered(names[i], normalized);
        if i < n {
          assert expected[..n][i] == x && names[..n][i] == names[i];
        }
      }
    }
  }

  /** The expected names, all text, normalize without raising, each to its
      own normalized form. */
  lemma {:induction false} NormalizeAllNames(names: seq<string>)
    ensures NormalizeAll(Strs(names)) == Ok(Normalized(names))
  {
    if names != [] {
      var n := |names| - 1;
      var values := Strs(names);
      StrsPrefix(names, n);
      NormalizeAllNames(names[..n]);
      assert NormalizeValue(values[n]) == Ok(NormalizeInterfaceName(names[n]));
    }
  }

  /** An interface entry is operational exactly when `enable` (true when
      absent) is truthy and its upper-cased `state` ("" when absent) is
      neither DOWN nor DISABLED; reading it never raises. */
  lemma OperationalRule(name: string, entries: seq<(string, Value)>, enable: Value, state: string)
    requires Find(entries, "enable") == Some(enable) || (Find(entries, "enable") == None && enable == Bool(true))
    requires Find(entries, "state") == Some(Str(state)) || (Find(entries, "state") == None && state == [])
    ensures OperationalName((name, Dict(entries))).complete
    ensures OperationalName((name, Dict(entries))).items == [name] <==>
      Truthy(enable) && Upper(state) != "DOWN" && Upper(state) != "DISABLED"
    ensures OperationalName((name, Dict(entries))).items == [] || OperationalName((name, Dict(entries))).items == [name]
  {
    assert Get(Dict(entries), "enable", Bool(true)) == Ok(enable);
    assert Get(Dict(entries), "state", Str("")) == Ok(Str(state));
  }

  lemma {:induction false} SomeMissing(expected: seq<string>, ops: seq<string>) returns (i: nat)
    requires MissingInterfaces(Strs(expected), Normalized(expected), Normalized(ops)) != []
    ensures i < |expected| && !Covered(NormalizeInterfaceName(expected[i]), Normalized(ops))
  {
    var values := Strs(expected);
    var norm := Normalized(expected);
    var missing := MissingInterfaces(values, norm, Normalized(ops));
    MissingInterfacesRule(values, norm, Normalized(ops), missing[0]);
    i :| 0 <= i < |values| && values[i] == missing[0] && !Covered(norm[i], Normalized(ops));
  }

  lemma {:induction false} NoneMissing(expected: seq<string>, ops: seq<string>, i: nat)
    requires MissingInterfaces(Strs(expected), Normalized(expected), Normalized(ops)) == []
    requires i < |expected|
    ensures Covered(NormalizeInterfaceName(expected[i]), Normalized(ops))
  {
    var values := Strs(expected);
    MissingInterfacesRule(values, Normalized(expected), Normalized(ops), values[i]);
  }

  /** No expected text interface is missing exactly when each one's
      normalized name occurs in some normalized operational name. */
  lemma {:induction false} NoneMissingRule(expected: seq<string>, ops: seq<string>)
    ensures MissingInterfaces(Strs(expected), Normalized(expected), Normalized(ops)) == [] <==>
      forall i :: 0 <= i < |expected| ==> Covered(NormalizeInterfaceName(expected[i]), Normalized(ops))
  {
    if MissingInterfaces(Strs(expected), Normalized(expected), Normalized(ops)) != [] {
      var i := SomeMissing(expected, ops);
    } else {
      forall i | 0 <= i < |expected|
        ensures Covered(NormalizeInterfaceName(expected[i]), Normalized(ops))
      {
        NoneMissing(expected, ops, i);
      }
    }
  }

  lemma InterfaceCheckOf(d: Device, expected: seq<string>, output: Value)
    requires CustomGet(d, "ospf_interfaces", List([])) == List(Strs(expected)) && expected != []
    requires Parse(d, "show ip ospf interface") == Ok(output)
    requires Visit(Walk(output, InterfaceShape), OperationalName).complete
    ensures var ops := Visit(Walk(output, InterfaceShape), OperationalName).items;
      var missing := MissingInterfaces(Strs(expected), Normalized(expected), Normalized(ops));
      InterfaceCheck(d) == if missing == [] then [] else [Finding(d.name, InterfacesMissing(missing, ops))]
  {
    NormalizeAllNames(expected);
    assert Iter(List(Strs(expected))) == Ok(Strs(expected)) && Truthy(List(Strs(expected)));
  }

  /** The expected interfaces, all text, are reported missing together:
      with a payload read without error, the device has a finding exactly
      when some expected interface's normalized name occurs in no normalized
      operational name, and the finding lists exactly those interfaces, in
      expected order, beside the operational ones. */
  lemma InterfacesMissingRule(d: Device, expected: seq<string>, output: Value)
    requires CustomGet(d, "ospf_interfaces", List([])) == List(Strs(expected)) && expected != []
    requires Parse(d, "show ip ospf interface") == Ok(output)
    requires Visit(Walk(output, InterfaceShape), OperationalName).complete
    ensures var ops := Visit(Walk(output, InterfaceShape), OperationalName).items;
      InterfaceCheck(d) == [] <==>
        forall i :: 0 <= i < |expected| ==> Covered(NormalizeInterfaceName(expected[i]), Normalized(ops))
    ensures var ops := Visit(Walk(output, InterfaceShape), OperationalName).items;
      InterfaceCheck(d) != [] ==>
        InterfaceCheck(d) == [Finding(d.name, InterfacesMissing(
          MissingInterfaces(Strs(expected), Normalized(expected), Normalized(ops)), ops))]
  {
    InterfaceCheckOf(d, expected, output);
    NoneMissingRule(expected, Visit(Walk(output, InterfaceShape), OperationalName).items);
  }

  /** Warnings gathered by a scan that ran to the end: a device warns with
      an issue exactly when some leaf produced it. */
  lemma ScopedVisit(name: string, w: Partial<(string, Value)>, f: ((string, Value)) -> Partial<Issue>, x: Issue)
    requires Visit(w, f).complete
    ensures Finding(name, x) in Scoped(name, Visit(w, f).items) <==> exists i :: 0 <= i < |w.items| && x in f(w.items[i]).items
  {
    ScanComplete(w.items, f, x);
    var items := Visit(w, f).items;
    if Finding(name, x) in Scoped(name, items) {
      var k :| 0 <= k < |items| && Scoped(name, items)[k] == Finding(name, x);
      assert items[k] == x;
    }
    if x in items {
      var k :| 0 <= k < |items| && items[k] == x;
      assert Scoped(name, items)[k] == Finding(name, x);
    }
  }

  /** One instance warns exactly when its `spf_runs` (0 when absent) is
      over 1000, and the warning carries the instance and the count. */
  lemma SpfRunsRule(inst: string, entries: seq<(string, Value)>, control: seq<(string, Value)>, runs: int)
    requires Find(entries, "spf_control") == Some(Dict(control))
    requires Find(control, "spf_runs") == Some(Int(runs)) || (Find(control, "spf_runs") == None && runs == 0)
    ensures SpfWarning((inst, Dict(entries))).complete
    ensures SpfWarning((inst, Dict(entries))).items != [] <==> runs > 1000
    ensures SpfWarning((inst, Dict(entries))).items != [] ==>
      SpfWarning((inst, Dict(entries))).items == [HighSpfRuns(inst, Int(runs))]
  {
    assert Get(Dict(entries), "spf_control", Dict([])) == Ok(Dict(control));
    assert Get(Dict(control), "spf_runs", Int(0)) == Ok(Int(runs));
    assert Greater(Int(runs), 1000) == Ok(runs > 1000);
  }

  /** With `show ip ospf` read without error, a device's SPF warnings are
      exactly those of its instances: one per instance over the threshold. */
  lemma SpfRule(d: Device, output: Value, x: Issue)
    requires Parse(d, "show ip ospf") == Ok(output)
    requires Visit(Walk(output, ProcessShape), SpfWarning).complete
    ensures Finding(d.name, x) in SpfCheck(d) <==>
      exists i :: 0 <= i < |Walk(output, ProcessShape).items| && x in SpfWarning(Walk(output, ProcessShape).items[i]).items
  {
    ScopedVisit(d.name, Walk(output, ProcessShape), SpfWarning, x);
  }

  /** An interface nobody listed is never flagged; a listed one is flagged
      exactly when its `cost` (0 when absent) differs from the listed cost. */
  lemma CostWarningRule(costs: seq<(string, Value)>, name: string, entries: seq<(string, Value)>, actual: Value)
    requires Find(entries, "cost") == Some(actual) || (Find(entries, "cost") == None && actual == Int(0))
    ensures CostWarning(Dict(costs), (name, Dict(entries))).complete
    ensures name !in Keys(costs) ==> CostWarning(Dict(costs), (name, Dict(entries))).items == []
    ensures Find(costs, name).Some? ==>
      var want := Find(costs, name).value;
      (CostWarning(Dict(costs), (name, Dict(entries))).items != [] <==> !Equal(actual, want)) &&
      (CostWarning(Dict(costs), (name, Dict(entries))).items != [] ==>
        CostWarning(Dict(costs), (name, Dict(entries))).items == [CostMismatch(name, actual, want)])
  {
    assert Get(Dict(entries), "cost", Int(0)) == Ok(actual);
  }

  /** With expected costs given and the interfaces read without error, a
      device's cost warnings are exactly those of its interfaces. */
  lemma CostRule(d: Device, costs: seq<(string, Value)>, output: Value, x: Issue)
    requires CustomGet(d, "ospf_interface_costs", Dict([])) == Dict(costs) && costs != []
    requires Parse(d, "show ip ospf interface") == Ok(output)
    requires Visit(Walk(output, InterfaceShape), intf => CostWarning(Dict(costs), intf)).complete
    ensures Finding(d.name, x) in CostCheck(d) <==>
      exists i :: 0 <= i < |Walk(output, InterfaceShape).items| &&
        x in CostWarning(Dict(costs), Walk(output, InterfaceShape).items[i]).items
  {
    var f := intf => CostWarning(Dict(costs), intf);
    ScopedVisit(d.name, Walk(output, InterfaceShape), f, x);
    assert CostCheck(d) == Scoped(d.name, Visit(Walk(output, InterfaceShape), f).items);
  }

  /** With a list of expected areas and a payload read without error, the
      device fails exactly when some expected area is not an area key, and
      the finding names exactly those areas: areas nobody expected never
      make the test fail. */
  lemma AreaRule(d: Device, expected: seq<string>, output: Value)
    requires CustomGet(d, "ospf_areas", List([])) == List(Strs(expected)) && expected != []
    requires Parse(d, "show ip ospf") == Ok(output) && Walk(output, AreaShape).complete
    ensures var found := Keys(Walk(output, AreaShape).items);
      AreaCheck(d) == [] <==> forall a :: a in expected ==> a in found
    ensures var found := Keys(Walk(output, AreaShape).items);
      AreaCheck(d) != [] ==>
        AreaCheck(d) == [Finding(d.name, AreasMissing(set a | a in expected && a !in found :: Str(a), found))]
  {
    var found := Keys(Walk(output, AreaShape).items);
    SetMinusStrs(expected, found);
    var missing := set a | a in expected && a !in found :: Str(a);
    assert Truthy(List(Strs(expected)));
    assert AreaCheck(d) == if missing == {} then [] else [Finding(d.name, AreasMissing(missing, found))];
    if exists a :: a in expected && a !in found {
      var a :| a in expected && a !in found;
      assert Str(a) in missing;
    }
  }

  /** A minimum route count that is not a number raises outside the
      `try`, and the route-count test errors; a minimum of at most 0 checks
      nothing; otherwise, over tables read without error, the device warns
      exactly when the route total is below the minimum. */
  lemma RouteCountRule(d: Device, routers: seq<Device>)
    requires d in routers
    ensures Centi(CustomGet(d, "ospf_min_route_count", Int(0))).None? ==>
      RouteCountCheck(d).Raised? && WarnTestOr(routers, RouteCountCheck).verdict == Errored
    ensures var m := Centi(CustomGet(d, "ospf_min_route_count", Int(0)));
      m.Some? && m.value <= 0 ==> RouteCountCheck(d) == Ok([])
    ensures var m := Centi(CustomGet(d, "ospf_min_route_count", Int(0)));
      m.Some? && Parse(d, "show ip route ospf").Ok? &&
      Visit(Walk(Parse(d, "show ip route ospf").value, RouteTableShape), RouteTableSize).complete ==>
        var total := Sum(Visit(Walk(Parse(d, "show ip route ospf").value, RouteTableShape), RouteTableSize).items);
        RouteCountCheck(d).Ok? && (RouteCountCheck(d).value != [] <==> total * 100 < m.value)
  {
    if RouteCountCheck(d).Raised? {
      var i :| 0 <= i < |routers| && routers[i] == d;
      if GatherAll(routers, RouteCountCheck).Ok? {
        GatherAllMember(routers, RouteCountCheck, Finding(d.name, CheckError));
      }
    }
  }

  /** An expected route is present exactly when some route starts with its
      text before the first '/': the exact-match test decides nothing more. */
  lemma {:induction false} RouteFoundByPrefix(e: string, routes: seq<string>)
    ensures RouteFound(Str(e), routes).Ok?
    ensures RouteFound(Str(e), routes).value <==> RoutePresent(e, routes)
  {
    if routes != [] {
      RouteFoundByPrefix(e, routes[1..]);
      assert forall r :: r in routes <==> r == routes[0] || r in routes[1..];
      if e == routes[0] {
        assert StartsWith(routes[0], SplitHead(e, '/'));
      }
    }
  }

  lemma StrsPrefix(names: seq<string>, k: nat)
    requires k <= |names|
    ensures Strs(names)[..k] == Strs(names[..k])
  {
  }

  predicate RoutePresent(e: string, routes: seq<string>) {
    exists r :: r in routes && StartsWith(r, SplitHead(e, '/'))
  }

  /** Expected routes given as text never make the matching raise, and one
      is reported missing exactly when no route starts with its text before
      the first '/'. */
  lemma {:induction false} MissingRoutesRule(expected: seq<string>, routes: seq<string>, x: Value)
    ensures MissingRoutes(Strs(expected), routes).Ok?
    ensures x in MissingRoutes(Strs(expected), routes).value <==>
      x.Str? && x.s in expected && !RoutePresent(x.s, routes)
  {
    if expected != [] {
      var n := |expected| - 1;
      var values := Strs(expected);
      StrsPrefix(expected, n);
      MissingRoutesRule(expected[..n], routes, x);
      RouteFoundByPrefix(expected[n], routes);
      var front := MissingRoutes(Strs(expected[..n]), routes).value;
      var present := RouteFound(Str(expected[n]), routes).value;
      assert values[n] == Str(expected[n]);
      assert MissingRoutes(values, routes) == Ok(if present then front else front + [values[n]]);
      if x.Str? {
        assert expected == expected[..n] + [expected[n]];
        assert x.s in expected <==> x.s in expected[..n] || x.s == expected[n];
      }
    }
  }

  /** With no expected routes the device is passed over; with some, a
      routing table that cannot be parsed is one error. */
  lemma RouteGuards(d: Device)
    ensures !Truthy(CustomGet(d, "ospf_expected_routes", List([]))) ==> RouteCheck(d) == []
    ensures Truthy(CustomGet(d, "ospf_expected_routes", List([]))) && Parse(d, "show ip route ospf").Raised? ==>
      RouteCheck(d) == [Finding(d.name, CheckError)]
  {
  }

  /** With a list of expected routes given as text and a table read without
      error: a walk stopped early is one error; otherwise the device fails
      exactly when some expected route has no route starting with its
      prefix, and the finding lists exactly those routes, in expected order,
      beside at most twenty of the routes found. */
  lemma RouteRule(d: Device, expected: seq<string>, output: Value)
    requires CustomGet(d, "ospf_expected_routes", List([])) == List(Strs(expected)) && expected != []
    requires Parse(d, "show ip route ospf") == Ok(output)
    ensures !Walk(output, RouteShape).complete ==> RouteCheck(d) == [Finding(d.name, CheckError)]
    ensures MissingRoutes(Strs(expected), Keys(Walk(output, RouteShape).items)).Ok?
    ensures var found := Keys(Walk(output, RouteShape).items);
      Walk(output, RouteShape).complete ==>
        (RouteCheck(d) == [] <==> forall e :: e in expected ==> RoutePresent(e, found))
    ensures var found := Keys(Walk(output, RouteShape).items);
      Walk(output, RouteShape).complete && RouteCheck(d) != [] ==>
        RouteCheck(d) == [Finding(d.name, RoutesMissing(MissingRoutes(Strs(expected), found).value,
                                                        found[..if |found| < 20 then |found| else 20]))]
  {
    assert Truthy(List(Strs(expected))) && Iter(List(Strs(expected))) == Ok(Strs(expected));
    MissingRoutesRule(expected, Keys(Walk(output, RouteShape).items), Null);
    if Walk(output, RouteShape).complete {
      var found := Keys(Walk(output, RouteShape).items);
      var missing := MissingRoutes(Strs(expected), found).value;
      if missing != [] {
        MissingRoutesRule(expected, found, missing[0]);
      } else {
        forall e | e in expected
          ensures RoutePresent(e, found)
        {
          MissingRoutesRule(expected, found, Str(e));
        }
      }
    }
  }

  /** Every long form holds an 'e', an 'o' or a 'v', so a name without
      those letters holds none of them. */
  lemma NoLongForms(name: string)
    requires 'e' !in name && 'o' !in name && 'v' !in name
    ensures forall r :: r in Abbreviations ==> r.0 != [] && !IsSubstring(r.0, name)
  {
    forall r | r in Abbreviations
      ensures r.0 != [] && !IsSubstring(r.0, name)
    {
      var c := if 'e' in r.0 then 'e' else if 'o' in r.0 then 'o' else 'v';
      assert c in r.0;
      if IsSubstring(r.0, name) {
        SubstringChars(r.0, name, c);
      }
    }
  }

  /** A name spelled "GigabitEthernet" and then a lower-case tail free of
      long forms is normalized to "gi" and that tail: "GigabitEthernet0/0"
      becomes "gi0/0". */
  lemma NormalizeGigabit(tail: string)
    requires 'e' !in tail && 'o' !in tail && 'v' !in tail
    requires forall c :: c in tail ==> !IsAsciiUpper(c)
    ensures NormalizeInterfaceName("GigabitEthernet" + tail) == "gi" + tail
  {
    var long := "gigabitethernet";
    var lowered := long + tail;
    assert Lower("GigabitEthernet" + tail) == lowered;
    assert long[7] == 'e';
    if IsSubstring(long, tail) {
      SubstringChars(long, tail, 'e');
    }
    ReplaceAbsent(tail, long, "gi");
    assert lowered[..|long|] == long && lowered[|long|..] == tail;
    assert ReplaceAll(lowered, long, "gi") == "gi" + tail;
    NoLongForms("gi" + tail);
    ReplaceEachAbsent("gi" + tail, Abbreviations[1..]);
  }

  /** The matching is by substring: an expected "Gi" name is covered by an
      operational "GigabitEthernet" name that merely extends it, so "Gi0/1"
      is covered by "GigabitEthernet0/11". */
  lemma SubstringCoversLongerName(tail: string, more: string)
    requires 'e' !in tail + more && 'o' !in tail + more && 'v' !in tail + more
    requires forall c :: c in tail + more ==> !IsAsciiUpper(c)
    ensures IsSubstring(NormalizeInterfaceName("Gi" + tail), NormalizeInterfaceName("GigabitEthernet" + tail + more))
  {
    NormalizeShortGi(tail);
    assert "GigabitEthernet" + tail + more == "GigabitEthernet" + (tail + more);
    NormalizeGigabit(tail + more);
    var op := "gi" + (tail + more);
    assert op[..|"gi" + tail|] == "gi" + tail;
    assert OccursAt("gi" + tail, op, 0);
  }

  /** A name spelled "Gi" and then a lower-case tail free of long forms only
      changes case. */
  lemma NormalizeShortGi(tail: string)
    requires 'e' !in tail && 'o' !in tail && 'v' !in tail
    requires forall c :: c in tail ==> !IsAsciiUpper(c)
    ensures NormalizeInterfaceName("Gi" + tail) == "gi" + tail
  {
    assert Lower("Gi" + tail) == "gi" + tail;
    NoLongForms("gi" + tail);
    ReplaceEachAbsent("gi" + tail, Abbreviations);
  }
}

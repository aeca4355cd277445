/** The spanning-tree suite: on every connected switch or router, a
    readable spanning-tree summary, root information for every instance that
    has a root, and a status for every port of every instance. Each device's
    work is guarded: an exception ends that device's checks and keeps what
    they had found. */
module Stp {
  import opened Text
  import opened PyValue
  import opened Testbed
  import opened Verdicts
  import opened Shapes

  datatype Issue =
    | SummaryFailed
    | SummaryEmpty
    | RootMissing(instance: string)
    | NoStatus(intf: string)

  type Findings = seq<Finding<Issue>>

  /** The testcase's setup keeps connected devices of type switch or router. */
  predicate IsSwitch(d: Device) {
    d.connected && (d.kind == "switch" || d.kind == "router")
  }

  method SelectSwitches(devices: seq<Device>) returns (switches: seq<Device>)
    ensures switches == Select(devices, IsSwitch)
    ensures forall d :: d in switches <==> d in devices && d.connected && d.kind in ["switch", "router"]
  {
    switches := Keep(devices, IsSwitch);
  }

  // ---------------------------------------------------------------- summary

  /** The summary must parse to a non-empty dictionary; a payload that is
      truthy but no dictionary raises on `.get` and is reported like a
      failed parse. */
  function SummaryCheck(d: Device): Findings {
    match Parse(d, "show spanning-tree summary")
    case Raised => [Finding(d.name, SummaryFailed)]
    case Ok(summary) =>
      if !Truthy(summary) then [Finding(d.name, SummaryEmpty)]
      else if summary.Dict? then []
      else [Finding(d.name, SummaryFailed)]
  }

  /** A device passes exactly when its summary is a non-empty dictionary,
      and otherwise has exactly one finding. */
  lemma SummaryRule(d: Device)
    ensures SummaryCheck(d) == [] <==>
      exists entries :: Parse(d, "show spanning-tree summary") == Ok(Dict(entries)) && entries != []
    ensures |SummaryCheck(d)| <= 1
    ensures "show spanning-tree summary" !in d.parsed ==> SummaryCheck(d) == [Finding(d.name, SummaryFailed)]
  {
    if SummaryCheck(d) == [] {
      var entries := d.parsed["show spanning-tree summary"].entries;
      assert Parse(d, "show spanning-tree summary") == Ok(Dict(entries));
    }
  }

  // ------------------------------------------------------------ root bridge

  /** `'root' in data`, and when it is, whether the root's priority or
      address is missing or falsy. */
  function RootIncomplete(data: Value): Result<bool> {
    var has :- In("root", data);
    if !has then Ok(false)
    else
      var root :- At(data, "root");
      var priority :- Get(root, "priority", Null);
      var mac :- Get(root, "address", Null);
      Ok(!Truthy(priority) || !Truthy(mac))
  }

  /** A dictionary holds a truthy value under `key`. */
  predicate Known(entries: seq<(string, Value)>, key: string) {
    Find(entries, key).Some? && Truthy(Find(entries, key).value)
  }

  /** An instance without root information is passed over; one with it
      is incomplete exactly when its priority or its address is unknown. */
  lemma RootIncompleteRule(entries: seq<(string, Value)>, root: seq<(string, Value)>)
    ensures Find(entries, "root") == None ==> RootIncomplete(Dict(entries)) == Ok(false)
    ensures Find(entries, "root") == Some(Dict(root)) ==>
      RootIncomplete(Dict(entries)) == Ok(!Known(root, "priority") || !Known(root, "address"))
  {
  }

  function RootOf(d: Device, inst: (string, Value)): Partial<Finding<Issue>> {
    match RootIncomplete(inst.1)
    case Raised => Partial([], false)
    case Ok(incomplete) => Partial(if incomplete then [Finding(d.name, RootMissing(inst.0))] else [], true)
  }

  /** The loop body over the instances of one device. */
  function RootStep(d: Device): ((string, Value)) -> Partial<Finding<Issue>> {
    inst => RootOf(d, inst)
  }

  /** The instances under `topology`. */
  const Instances := [Within("topology")]

  /** The instance walk and its checks up to the first exception; a
      device whose table cannot be parsed only logs. */
  function RootCheck(d: Device): Findings {
    match Parse(d, "show spanning-tree")
    case Raised => []
    case Ok(parsed) => Visit(Walk(parsed, Instances), RootStep(d)).items
  }

  /** When no instance raises, an instance is reported exactly when it has
      root information with an unknown priority or address. */
  lemma RootRule(d: Device, parsed: Value, insts: seq<(string, Value)>, name: string)
    requires Parse(d, "show spanning-tree") == Ok(parsed)
    requires Walk(parsed, Instances) == Partial(insts, true)
    requires forall i :: 0 <= i < |insts| ==> RootIncomplete(insts[i].1).Ok?
    ensures Finding(d.name, RootMissing(name)) in RootCheck(d) <==>
      exists i :: 0 <= i < |insts| && insts[i].0 == name && RootIncomplete(insts[i].1) == Ok(true)
  {
    var f := RootStep(d);
    ScanAllComplete(insts, f);
    ScanComplete(insts, f, Finding(d.name, RootMissing(name)));
  }

  /** An exception at a later instance does not take back what earlier
      instances were found to lack. */
  lemma RootKeepsEarlier(d: Device, parsed: Value, k: nat)
    requires Parse(d, "show spanning-tree") == Ok(parsed)
    requires k <= |Walk(parsed, Instances).items|
    ensures Scan(Walk(parsed, Instances).items[..k], RootStep(d)).items <= RootCheck(d)
  {
    ScanKeepsPrefix(Walk(parsed, Instances).items, RootStep(d), k);
  }

  // ------------------------------------------------------------ port states

  function StatusOf(d: Device, port: (string, Value)): Partial<Finding<Issue>> {
    match Get(port.1, "status", Null)
    case Raised => Partial([], false)
    case Ok(status) => Partial(if Truthy(status) then [] else [Finding(d.name, NoStatus(port.0))], true)
  }

  function StatusStep(d: Device): ((string, Value)) -> Partial<Finding<Issue>> {
    port => StatusOf(d, port)
  }

  /** The ports of every instance. */
  const Ports := [Within("topology"), Within("interfaces")]

  function InterfaceCheck(d: Device): Findings {
    match Parse(d, "show spanning-tree")
    case Raised => []
    case Ok(parsed) => Visit(Walk(parsed, Ports), StatusStep(d)).items
  }

  /** When every port reached is a dictionary, a port is reported exactly
      when its status is missing or falsy. */
  lemma InterfaceRule(d: Device, parsed: Value, ports: seq<(string, Value)>, name: string)
    requires Parse(d, "show spanning-tree") == Ok(parsed)
    requires Walk(parsed, Ports).items == ports
    requires forall i :: 0 <= i < |ports| ==> ports[i].1.Dict?
    ensures Finding(d.name, NoStatus(name)) in InterfaceCheck(d) <==>
      exists i :: 0 <= i < |ports| && ports[i].0 == name && !Known(ports[i].1.entries, "status")
  {
    var f := StatusStep(d);
    ScanAllComplete(ports, f);
    ScanComplete(ports, f, Finding(d.name, NoStatus(name)));
  }

  /** An exception at a later port does not take back earlier findings. */
  lemma InterfaceKeepsEarlier(d: Device, parsed: Value, k: nat)
    requires Parse(d, "show spanning-tree") == Ok(parsed)
    requires k <= |Walk(parsed, Ports).items|
    ensures Scan(Walk(parsed, Ports).items[..k], StatusStep(d)).items <= InterfaceCheck(d)
  {
    ScanKeepsPrefix(Walk(parsed, Ports).items, StatusStep(d), k);
  }

  // ------------------------------------------------------------------ suite

  function Suite(devices: seq<Device>): (outcomes: seq<Outcome<Finding<Issue>>>)
    ensures |outcomes| == 3
  {
    var switches := Select(devices, IsSwitch);
    [FailTest(switches, SummaryCheck), FailTest(switches, RootCheck), FailTest(switches, InterfaceCheck)]
  }

  method RunSuite(devices: seq<Device>) returns (outcomes: seq<Outcome<Finding<Issue>>>)
    ensures outcomes == Suite(devices)
  {
    var switches := SelectSwitches(devices);
    var summary := RunFailTest(switches, SummaryCheck);
    var root := RunFailTest(switches, RootCheck);
    var ports := RunFailTest(switches, InterfaceCheck);
    outcomes := [summary, root, ports];
  }

  /** With no connected switch or router every test is skipped, and with
      one none is. */
  lemma SkippedWithoutSwitches(devices: seq<Device>)
    ensures (forall i :: 0 <= i < 3 ==> Suite(devices)[i].verdict == Skipped) <==>
      forall d :: d in devices ==> !IsSwitch(d)
    ensures (exists i :: 0 <= i < 3 && Suite(devices)[i].verdict == Skipped) ==>
      forall d :: d in devices ==> !IsSwitch(d)
  {
    var switches := Select(devices, IsSwitch);
    var outcomes := Suite(devices);
    assert outcomes == [FailTest(switches, SummaryCheck), FailTest(switches, RootCheck), FailTest(switches, InterfaceCheck)];
    if switches == [] {
      SelectEmpty(devices, IsSwitch);
    } else {
      assert outcomes[0].verdict != Skipped && outcomes[1].verdict != Skipped && outcomes[2].verdict != Skipped;
      assert switches[0] in devices && IsSwitch(switches[0]);
    }
  }
}

/** The link-health suite: for every link of the testbed topology, the state,
    optical receive power, error counters, speed and duplex, and MTU of each
    of its endpoints, and the CDP neighbour each end of a point-to-point link
    sees. A link with something to report appears once, carrying the details
    of all its endpoints. Only the optics and CDP `parse` calls are guarded. */
module Layer1 {
  import opened Text
  import opened PyValue
  import opened Testbed
  import opened Verdicts

  /** What one endpoint (or one direction of a link) contributes to its
      link's report. Receive power and thresholds are hundredths of a dBm. */
  datatype Detail =
    | NotUp(device: string, intf: string, oper: string, protocol: string)
    | RxOutOfRange(device: string, intf: string, rx: int, low: int, high: int)
    | Errors(device: string, intf: string, counts: seq<(string, Value)>)
    | Mismatched(device: string, intf: string, mismatches: seq<Mismatch>)
    | MtuMismatch(device: string, intf: string, actual: Value, expected: Value)
    | CdpParseFailed(device: string)
    | CdpNeighborMismatch(device: string, intf: string, neighbor: string, expectedNeighbor: string)
    | CdpPortMismatch(device: string, intf: string, port: Value, expectedPort: string)
    | CdpMissing(device: string, intf: string)

  datatype Mismatch =
    | SpeedMismatch(actualSpeed: Value, expectedSpeed: Value)
    | DuplexMismatch(actualDuplex: string, expectedDuplex: Value)

  /** A link's report: the link's name and the details of its endpoints. */
  type Findings = seq<Finding<seq<Detail>>>

  /** Receive-power bounds per SFP type, in hundredths of a dBm. */
  const SfpThresholds: map<string, (int, int)> := map[
    "SFP-10G-SR" := (-950, 200),
    "SFP-10G-LR" := (-1440, 50),
    "SFP-10G-ER" := (-1580, -100),
    "SFP-1G-SX" := (-1700, 0),
    "SFP-1G-LX" := (-1900, -300)]

  /** A link is reported once when any endpoint has something to say. */
  function LinkReport(link: Link, details: Result<seq<Detail>>): Result<Findings> {
    var ds :- details;
    Ok(if ds == [] then [] else [Finding(link.name, ds)])
  }

  /** The details of every endpoint of a link, in order; an exception at
      one endpoint escapes the whole test. */
  function EachEndpoint(link: Link, f: Endpoint -> Result<seq<Detail>>): Result<Findings> {
    LinkReport(link, GatherAll(link.interfaces, f))
  }

  /** A link with a report appears exactly once, carrying exactly the
      details of its endpoints. */
  lemma LinkReportRule(link: Link, f: Endpoint -> Result<seq<Detail>>, x: Detail)
    requires GatherAll(link.interfaces, f).Ok?
    ensures forall i :: 0 <= i < |link.interfaces| ==> f(link.interfaces[i]).Ok?
    ensures EachEndpoint(link, f).Ok? && |EachEndpoint(link, f).value| <= 1
    ensures EachEndpoint(link, f).value == [] <==>
      forall i :: 0 <= i < |link.interfaces| ==> f(link.interfaces[i]).value == []
    ensures forall g :: g in EachEndpoint(link, f).value ==>
      g.scope == link.name &&
      (x in g.issue <==> exists i :: 0 <= i < |link.interfaces| && x in f(link.interfaces[i]).value)
  {
    GatherAllMember(link.interfaces, f, x);
    var ds := GatherAll(link.interfaces, f).value;
    if ds == [] {
      forall i | 0 <= i < |link.interfaces|
        ensures f(link.interfaces[i]).value == []
      {
        if f(link.interfaces[i]).value != [] {
          var y := f(link.interfaces[i]).value[0];
          GatherAllMember(link.interfaces, f, y);
        }
      }
    } else {
      var y := ds[0];
      GatherAllMember(link.interfaces, f, y);
    }
  }

  /** The per-endpoint loop of a link check, with its `link_ok` flag and
      `link_details` list. */
  method ReportLink(link: Link, f: Endpoint -> Result<seq<Detail>>) returns (r: Result<Findings>)
    ensures r == EachEndpoint(link, f)
  {
    var ends := link.interfaces;
    var linkOk := true;
    var details: seq<Detail> := [];
    for i := 0 to |ends|
      invariant GatherAll(ends[..i], f) == Ok(details)
      invariant linkOk <==> details == []
    {
      assert ends[..i + 1][..i] == ends[..i];
      var step := f(ends[i]);
      if step.Raised? {
        LaterRaised(ends, f, i + 1);
        return Raised;
      }
      if step.value != [] {
        linkOk := false;
      }
      details := details + step.value;
    }
    assert ends[..|ends|] == ends;
    r := if linkOk then Ok([]) else Ok([Finding(link.name, details)]);
  }

  /** `parse('show interfaces <name>').get(name, {})` */
  function InterfaceData(d: Device, name: string): Result<Value> {
    var parsed :- Parse(d, "show interfaces " + name);
    Get(parsed, name, Dict([]))
  }

  // ----------------------------------------------------------------- status

  function EndpointStatus(e: Endpoint): Result<seq<Detail>> {
    var data :- InterfaceData(e.device, e.name);
    var rawOper :- Get(data, "oper_status", Str(""));
    var oper :- LowerOf(rawOper);
    var rawProtocol :- Get(data, "line_protocol", Str(""));
    var protocol :- LowerOf(rawProtocol);
    Ok(if oper != "up" || protocol != "up" then [NotUp(e.device.name, e.name, oper, protocol)] else [])
  }

  function StatusCheck(link: Link): Result<Findings> {
    EachEndpoint(link, EndpointStatus)
  }

  /** An endpoint is flagged exactly when its state or its line protocol,
      lower-cased, is not "up"; a missing one counts as the empty string. */
  lemma StatusRule(e: Endpoint, data: seq<(string, Value)>, oper: string, protocol: string)
    requires InterfaceData(e.device, e.name) == Ok(Dict(data))
    requires Find(data, "oper_status") == Some(Str(oper)) || (Find(data, "oper_status") == None && oper == "")
    requires Find(data, "line_protocol") == Some(Str(protocol)) || (Find(data, "line_protocol") == None && protocol == "")
    ensures EndpointStatus(e).Ok?
    ensures EndpointStatus(e).value != [] <==> Lower(oper) != "up" || Lower(protocol) != "up"
    ensures oper == "" ==> EndpointStatus(e).value != []
  {
  }

  // ----------------------------------------------------------------- optics

  function OpticsOf(e: Endpoint): Result<seq<Detail>> {
    var sfp := InterfaceAttr(e.device, e.name, "sfp_type");
    if !Truthy(sfp) then Ok([])
    else if !Hashable(sfp) then Raised
    else if !sfp.Str? || sfp.s !in SfpThresholds then Ok([])
    else
      match Parse(e.device, "show controllers optics " + e.name)
      case Raised => Ok([])
      case Ok(parsed) =>
        var data :- Get(parsed, e.name, Dict([]));
        var optics :- Get(data, "optics", Dict([]));
        RxJudgement(e, sfp.s, optics)
  }

  /** The receive power, `rx_power` else `receive_power`, held against the
      bounds of a known SFP type; no reading is no finding. */
  function RxJudgement(e: Endpoint, sfp: string, optics: Value): Result<seq<Detail>>
    requires sfp in SfpThresholds
  {
    var fallback :- Get(optics, "receive_power", Null);
    var rx :- Get(optics, "rx_power", fallback);
    if rx == Null then Ok([])
    else
      var power :- Float(rx);
      var (low, high) := SfpThresholds[sfp];
      Ok(if low <= power <= high then [] else [RxOutOfRange(e.device.name, e.name, power, low, high)])
  }

  function OpticsCheck(link: Link): Result<Findings> {
    EachEndpoint(link, OpticsOf)
  }

  /** An endpoint without an SFP type, with an unknown type or whose optics
      cannot be parsed is skipped, not flagged. */
  lemma OpticsSkips(e: Endpoint)
    ensures !Truthy(InterfaceAttr(e.device, e.name, "sfp_type")) ==> OpticsOf(e) == Ok([])
    ensures (var sfp := InterfaceAttr(e.device, e.name, "sfp_type");
             sfp.Str? && sfp.s !in SfpThresholds) ==> OpticsOf(e) == Ok([])
    ensures (var sfp := InterfaceAttr(e.device, e.name, "sfp_type");
             Hashable(sfp) && "show controllers optics " + e.name !in e.device.parsed) ==> OpticsOf(e) == Ok([])
  {
  }

  /** The receive power, `rx_power` else `receive_power`, is flagged exactly
      when it lies outside the type's bounds, both bounds included; with no
      reading at all the endpoint is skipped. */
  lemma OpticsRule(e: Endpoint, sfp: string, data: Value, optics: seq<(string, Value)>, rx: Value, power: int)
    requires InterfaceAttr(e.device, e.name, "sfp_type") == Str(sfp) && sfp in SfpThresholds
    requires "show controllers optics " + e.name in e.device.parsed
    requires Get(e.device.parsed["show controllers optics " + e.name], e.name, Dict([])) == Ok(data)
    requires Get(data, "optics", Dict([])) == Ok(Dict(optics))
    ensures Find(optics, "rx_power") == None && Find(optics, "receive_power") == None ==> OpticsOf(e) == Ok([])
    ensures (Find(optics, "rx_power") == Some(rx) ||
             (Find(optics, "rx_power") == None && Find(optics, "receive_power") == Some(rx))) &&
            Float(rx) == Ok(power) ==>
      OpticsOf(e).Ok? &&
      (OpticsOf(e).value != [] <==> power < SfpThresholds[sfp].0 || SfpThresholds[sfp].1 < power)
  {
    assert Parse(e.device, "show controllers optics " + e.name) == Ok(e.device.parsed["show controllers optics " + e.name]);
    assert OpticsOf(e) == RxJudgement(e, sfp, Dict(optics));
  }

  // ----------------------------------------------------------------- errors

  /** The counters checked and the name each is reported under. */
  const ErrorCounters := [("in", "in_errors"), ("out", "out_errors"), ("CRC", "in_crc_errors")]

  /** The counters among `keys` above zero, each with its count; a missing
      counter is zero. */
  function CounterErrors(counters: Value, keys: seq<(string, string)>): Result<seq<(string, Value)>> {
    if keys == [] then Ok([])
    else
      var front :- CounterErrors(counters, keys[..|keys| - 1]);
      var key := keys[|keys| - 1];
      var count :- Get(counters, key.1, Int(0));
      var over :- Greater(count, 0);
      Ok(front + if over then [(key.0, count)] else [])
  }

  /** The loop that fills an endpoint's `errors` list. */
  method CountErrors(counters: Value) returns (r: Result<seq<(string, Value)>>)
    ensures r == CounterErrors(counters, ErrorCounters)
  {
    var errors: seq<(string, Value)> := [];
    for i := 0 to |ErrorCounters|
      invariant CounterErrors(counters, ErrorCounters[..i]) == Ok(errors)
    {
      assert ErrorCounters[..i + 1][..i] == ErrorCounters[..i];
      assert ErrorCounters[..i + 1][i] == ErrorCounters[i];
      var key := ErrorCounters[i];
      var count := Get(counters, key.1, Int(0));
      if count.Raised? {
        CounterErrorsRaised(counters, i + 1);
        return Raised;
      }
      var over := Greater(count.value, 0);
      if over.Raised? {
        CounterErrorsRaised(counters, i + 1);
        return Raised;
      }
      ghost var before := errors;
      if over.value {
        errors := errors + [(key.0, count.value)];
      }
      assert CounterErrors(counters, ErrorCounters[..i + 1]) ==
        Ok(before + if over.value then [(key.0, count.value)] else []);
      assert errors == before + if over.value then [(key.0, count.value)] else [];
    }
    assert ErrorCounters[..|ErrorCounters|] == ErrorCounters;
    r := Ok(errors);
  }

  lemma {:induction false} CounterErrorsRaised(counters: Value, k: nat)
    requires k <= |ErrorCounters| && CounterErrors(counters, ErrorCounters[..k]).Raised?
    ensures CounterErrors(counters, ErrorCounters).Raised?
    decreases |ErrorCounters| - k
  {
    if k < |ErrorCounters| {
      assert ErrorCounters[..k + 1][..k] == ErrorCounters[..k];
      CounterErrorsRaised(counters, k + 1);
    } else {
      assert ErrorCounters[..k] == ErrorCounters;
    }
  }

  function ErrorsOf(e: Endpoint): Result<seq<Detail>> {
    var data :- InterfaceData(e.device, e.name);
    var counters :- Get(data, "counters", Dict([]));
    var errors :- CounterErrors(counters, ErrorCounters);
    Ok(if errors == [] then [] else [Errors(e.device.name, e.name, errors)])
  }

  function ErrorsCheck(link: Link): Result<Findings> {
    EachEndpoint(link, ErrorsOf)
  }

  /** An integer counter, or none. */
  predicate IntOrAbsent(counters: seq<(string, Value)>, key: string) {
    Find(counters, key) == None || Find(counters, key).value.Int?
  }

  /** A counter's value, zero when it is missing. */
  function Count(counters: seq<(string, Value)>, key: string): int
    requires IntOrAbsent(counters, key)
  {
    match Find(counters, key)
    case None => 0
    case Some(v) => v.i
  }

  /** An endpoint is flagged exactly when one of its input, output or CRC
      error counters is above zero; missing counters count as zero. */
  lemma ErrorsRule(e: Endpoint, data: Value, counters: seq<(string, Value)>)
    requires InterfaceData(e.device, e.name) == Ok(data)
    requires Get(data, "counters", Dict([])) == Ok(Dict(counters))
    requires IntOrAbsent(counters, "in_errors") && IntOrAbsent(counters, "out_errors") &&
      IntOrAbsent(counters, "in_crc_errors")
    ensures ErrorsOf(e).Ok?
    ensures ErrorsOf(e).value != [] <==>
      Count(counters, "in_errors") > 0 || Count(counters, "out_errors") > 0 || Count(counters, "in_crc_errors") > 0
  {
    var c := Dict(counters);
    CounterOver(counters, "in_errors");
    CounterOver(counters, "out_errors");
    CounterOver(counters, "in_crc_errors");
    assert ErrorCounters[..2][..1] == ErrorCounters[..1] && ErrorCounters[..1][..0] == [];
    assert ErrorCounters[..1][0] == ("in", "in_errors") && ErrorCounters[..2][1] == ("out", "out_errors");
    assert ErrorCounters[2] == ("CRC", "in_crc_errors");
    assert ErrorCounters[..3] == ErrorCounters;
    assert CounterErrors(c, []) == Ok([]);
    var r0 := CounterErrors(c, ErrorCounters[..1]);
    var r1 := CounterErrors(c, ErrorCounters[..2]);
    assert r0.Ok? && (r0.value == [] <==> Count(counters, "in_errors") <= 0);
    assert r1.Ok? && (r1.value == [] <==> Count(counters, "in_errors") <= 0 && Count(counters, "out_errors") <= 0);
  }

  /** Reading one counter: it raises nothing, and is over zero exactly when
      its value is. */
  lemma CounterOver(counters: seq<(string, Value)>, key: string)
    requires IntOrAbsent(counters, key)
    ensures Get(Dict(counters), key, Int(0)).Ok?
    ensures Greater(Get(Dict(counters), key, Int(0)).value, 0) == Ok(Count(counters, key) > 0)
  {
    var n := Count(counters, key);
    assert Get(Dict(counters), key, Int(0)) == Ok(Int(n));
    assert n * 100 > 0 <==> n > 0;
  }

  // ---------------------------------------------------------- speed, duplex

  function DuplexCheck(actual: string, expected: Value): Result<seq<Mismatch>> {
    if !Truthy(expected) then Ok([])
    else
      var want :- LowerOf(expected);
      Ok(if actual != want then [DuplexMismatch(actual, expected)] else [])
  }

  function SpeedDuplexOf(e: Endpoint): Result<seq<Detail>> {
    var speed := InterfaceAttr(e.device, e.name, "speed");
    var duplex := InterfaceAttr(e.device, e.name, "duplex");
    if !Truthy(speed) && !Truthy(duplex) then Ok([])
    else
      var data :- InterfaceData(e.device, e.name);
      var speedFallback :- Get(data, "speed", Null);
      var actualSpeed :- Get(data, "bandwidth", speedFallback);
      var duplexFallback :- Get(data, "duplex", Str(""));
      var rawDuplex :- Get(data, "duplex_mode", duplexFallback);
      var actualDuplex :- LowerOf(rawDuplex);
      var speedOff := if Truthy(speed) && !Equal(actualSpeed, speed) then [SpeedMismatch(actualSpeed, speed)] else [];
      var duplexOff :- DuplexCheck(actualDuplex, duplex);
      Ok(if speedOff + duplexOff == [] then [] else [Mismatched(e.device.name, e.name, speedOff + duplexOff)])
  }

  function SpeedDuplexCheck(link: Link): Result<Findings> {
    EachEndpoint(link, SpeedDuplexOf)
  }

  /** An endpoint with neither an expected speed nor an expected duplex is
      skipped without being asked anything. */
  lemma SpeedDuplexSkips(e: Endpoint)
    requires !Truthy(InterfaceAttr(e.device, e.name, "speed")) && !Truthy(InterfaceAttr(e.device, e.name, "duplex"))
    ensures SpeedDuplexOf(e) == Ok([])
  {
  }

  /** The speed (`bandwidth`, else `speed`) must equal the expected one
      exactly, and the duplex (`duplex_mode`, else `duplex`, else empty)
      must equal the expected one case aside; each is checked only when it
      is expected. An expected duplex that is not text cannot be lowered,
      and the endpoint raises. */
  lemma SpeedDuplexRule(e: Endpoint, data: seq<(string, Value)>, actualSpeed: Value, actualDuplex: string)
    requires InterfaceData(e.device, e.name) == Ok(Dict(data))
    requires Find(data, "bandwidth") == Some(actualSpeed) ||
      (Find(data, "bandwidth") == None && Find(data, "speed") == Some(actualSpeed)) ||
      (Find(data, "bandwidth") == None && Find(data, "speed") == None && actualSpeed == Null)
    requires Find(data, "duplex_mode") == Some(Str(actualDuplex)) ||
      (Find(data, "duplex_mode") == None && Find(data, "duplex") == Some(Str(actualDuplex))) ||
      (Find(data, "duplex_mode") == None && Find(data, "duplex") == None && actualDuplex == [])
    ensures var want := InterfaceAttr(e.device, e.name, "duplex");
      SpeedDuplexOf(e).Ok? <==> !Truthy(want) || want.Str?
    ensures var speed, want := InterfaceAttr(e.device, e.name, "speed"), InterfaceAttr(e.device, e.name, "duplex");
      SpeedDuplexOf(e).Ok? ==>
        (SpeedDuplexOf(e).value != [] <==>
          (Truthy(speed) && !Equal(actualSpeed, speed)) || (Truthy(want) && Lower(actualDuplex) != Lower(want.s)))
  {
    var d := Dict(data);
    var speed := InterfaceAttr(e.device, e.name, "speed");
    var want := InterfaceAttr(e.device, e.name, "duplex");
    if Truthy(speed) || Truthy(want) {
      assert Get(d, "bandwidth", Get(d, "speed", Null).value) == Ok(actualSpeed);
      assert Get(d, "duplex_mode", Get(d, "duplex", Str("")).value) == Ok(Str(actualDuplex));
      assert LowerOf(Str(actualDuplex)) == Ok(Lower(actualDuplex));
      var speedOff := if Truthy(speed) && !Equal(actualSpeed, speed) then [SpeedMismatch(actualSpeed, speed)] else [];
      if !Truthy(want) || want.Str? {
        var duplexOff := if Truthy(want) && Lower(actualDuplex) != Lower(want.s) then [DuplexMismatch(Lower(actualDuplex), want)] else [];
        assert DuplexCheck(Lower(actualDuplex), want) == Ok(duplexOff);
        assert SpeedDuplexOf(e) ==
          Ok(if speedOff + duplexOff == [] then [] else [Mismatched(e.device.name, e.name, speedOff + duplexOff)]);
      } else {
        assert DuplexCheck(Lower(actualDuplex), want) == Raised;
      }
    }
  }

  // -------------------------------------------------------------------- MTU

  function MtuOf(e: Endpoint): Result<seq<Detail>> {
    var expected := InterfaceAttr(e.device, e.name, "mtu");
    if !Truthy(expected) then Ok([])
    else
      var data :- InterfaceData(e.device, e.name);
      var actual :- Get(data, "mtu", Null);
      Ok(if Equal(actual, expected) then [] else [MtuMismatch(e.device.name, e.name, actual, expected)])
  }

  function MtuCheck(link: Link): Result<Findings> {
    EachEndpoint(link, MtuOf)
  }

  /** Without an expected MTU an endpoint is skipped; with one, any reading
      that does not equal it is a mismatch, a missing reading included. */
  lemma MtuRule(e: Endpoint, data: seq<(string, Value)>)
    ensures !Truthy(InterfaceAttr(e.device, e.name, "mtu")) ==> MtuOf(e) == Ok([])
    ensures Truthy(InterfaceAttr(e.device, e.name, "mtu")) && InterfaceData(e.device, e.name) == Ok(Dict(data)) ==>
      MtuOf(e).Ok? &&
      (MtuOf(e).value != [] <==>
        Find(data, "mtu") == None || !Equal(Find(data, "mtu").value, InterfaceAttr(e.device, e.name, "mtu")))
  {
  }

  // -------------------------------------------------------------------- CDP

  /** The first CDP entry whose local interface contains `local`, case
      aside; reading an entry that is not a dictionary of strings raises. */
  function CdpEntry(entries: seq<(string, Value)>, local: string): (r: Result<Option<Value>>)
    ensures r == Ok(None) ==> forall i :: 0 <= i < |entries| ==>
      (Unmatched(entries[i].1, local))
    ensures r.Ok? && r.value.Some? ==> exists i :: (0 <= i < |entries| && entries[i].1 == r.value.value &&
      Matched(entries[i].1, local) &&
      forall j :: 0 <= j < i ==> Unmatched(entries[j].1, local))
  {
    if entries == [] then Ok(None)
    else
      var li :- LocalInterface(entries[0].1);
      if IsSubstring(Lower(local), li) then Ok(Some(entries[0].1))
      else
        var r := CdpEntry(entries[1..], local);
        assert forall i :: 0 < i < |entries| ==> entries[i] == entries[1..][i - 1];
        assert r.Ok? && r.value.Some? ==> exists i :: (0 <= i < |entries[1..]| && entries[1..][i].1 == r.value.value &&
          Matched(entries[1..][i].1, local) &&
          forall j :: 0 <= j < i ==> Unmatched(entries[1..][j].1, local));
        r
  }

  /** A CDP entry that can be read and whose local interface does not
      contain `local`, case aside. */
  predicate Unmatched(neighbor: Value, local: string) {
    LocalInterface(neighbor).Ok? && !IsSubstring(Lower(local), LocalInterface(neighbor).value)
  }

  /** A CDP entry whose local interface contains `local`, case aside. */
  predicate Matched(neighbor: Value, local: string) {
    LocalInterface(neighbor).Ok? && IsSubstring(Lower(local), LocalInterface(neighbor).value)
  }

  /** `neighbor.get('local_interface', '').lower()` */
  function LocalInterface(neighbor: Value): Result<string> {
    var raw :- Get(neighbor, "local_interface", Str(""));
    LowerOf(raw)
  }

  /** The search loop over the CDP index, with its `found` flag and `break`. */
  method FindCdpEntry(entries: seq<(string, Value)>, local: string) returns (r: Result<Option<Value>>)
    ensures r == CdpEntry(entries, local)
  {
    var found := false;
    r := Ok(None);
    var i := 0;
    while i < |entries|
      invariant 0 <= i <= |entries|
      invariant CdpEntry(entries, local) == CdpEntry(entries[i..], local)
      invariant !found
    {
      var li := LocalInterface(entries[i].1);
      if li.Raised? {
        return Raised;
      }
      if IsSubstring(Lower(local), li.value) {
        found := true;
        r := Ok(Some(entries[i].1));
        break;
      }
      assert entries[i..][1..] == entries[i + 1..];
      i := i + 1;
    }
  }

  /** One direction of a link: what `local`'s CDP table says about `remote`. */
  function CdpDirection(local: Endpoint, remote: Endpoint): Result<seq<Detail>> {
    match Parse(local.device, "show cdp neighbors detail")
    case Raised => Ok([CdpParseFailed(local.device.name)])
    case Ok(parsed) =>
      var index :- Get(parsed, "index", Dict([]));
      var entries :- Items(index);
      var entry :- CdpEntry(entries, local.name);
      match entry
      case None => Ok([CdpMissing(local.device.name, local.name)])
      case Some(neighbor) => CompareNeighbor(local, remote, neighbor)
  }

  /** The CDP entry found for `local`, held against the endpoint at the
      other end of the link. */
  function CompareNeighbor(local: Endpoint, remote: Endpoint, neighbor: Value): Result<seq<Detail>> {
    var rawId :- Get(neighbor, "device_id", Str(""));
    var rawPort :- Get(neighbor, "port_id", Str(""));
    if !rawId.Str? then Raised
    else
      var host := SplitHead(rawId.s, '.');
      if !IsSubstring(Lower(remote.device.name), Lower(host)) then
        Ok([CdpNeighborMismatch(local.device.name, local.name, host, remote.device.name)])
      else
        var port :- LowerOf(rawPort);
        Ok(if IsSubstring(Lower(remote.name), port) then []
           else [CdpPortMismatch(local.device.name, local.name, rawPort, remote.name)])
  }

  /** Only point-to-point links are reconciled, always in both directions. */
  function CdpCheck(link: Link): Result<Findings> {
    if |link.interfaces| != 2 then Ok([])
    else
      var a := link.interfaces[0];
      var b := link.interfaces[1];
      var there :- CdpDirection(a, b);
      var back :- CdpDirection(b, a);
      LinkReport(link, Ok(there + back))
  }

  /** A link with other than two ends is not reconciled; a two-ended one
      reports what both directions found, an unparsable CDP table in one
      direction included. */
  lemma CdpScope(link: Link)
    ensures |link.interfaces| != 2 ==> CdpCheck(link) == Ok([])
    ensures (|link.interfaces| == 2 && CdpDirection(link.interfaces[0], link.interfaces[1]).Ok? &&
      CdpDirection(link.interfaces[1], link.interfaces[0]).Ok?) ==>
      CdpCheck(link).Ok? &&
      (CdpCheck(link).value == [] <==>
        CdpDirection(link.interfaces[0], link.interfaces[1]).value == [] &&
        CdpDirection(link.interfaces[1], link.interfaces[0]).value == [])
  {
  }

  lemma CdpParseFailure(local: Endpoint, remote: Endpoint)
    requires "show cdp neighbors detail" !in local.device.parsed
    ensures CdpDirection(local, remote) == Ok([CdpParseFailed(local.device.name)])
  {
  }

  /** The device id is compared up to its first '.', both names case
      aside; a neighbour mismatch is reported instead of a port mismatch,
      never with one. An absent device id or port reads as empty. */
  lemma CompareRule(local: Endpoint, remote: Endpoint, neighbor: seq<(string, Value)>, id: string, port: string)
    requires Find(neighbor, "device_id") == Some(Str(id)) || (Find(neighbor, "device_id") == None && id == [])
    requires Find(neighbor, "port_id") == Some(Str(port)) || (Find(neighbor, "port_id") == None && port == [])
    ensures CompareNeighbor(local, remote, Dict(neighbor)).Ok?
    ensures |CompareNeighbor(local, remote, Dict(neighbor)).value| <= 1
    ensures var host := SplitHead(id, '.');
      CompareNeighbor(local, remote, Dict(neighbor)).value != [] <==>
        !IsSubstring(Lower(remote.device.name), Lower(host)) || !IsSubstring(Lower(remote.name), Lower(port))
    ensures var host := SplitHead(id, '.');
      !IsSubstring(Lower(remote.device.name), Lower(host)) ==>
        CompareNeighbor(local, remote, Dict(neighbor)).value ==
          [CdpNeighborMismatch(local.device.name, local.name, host, remote.device.name)]
  {
    assert Get(Dict(neighbor), "device_id", Str("")) == Ok(Str(id));
    assert Get(Dict(neighbor), "port_id", Str("")) == Ok(Str(port));
  }

  /** A direction whose CDP table has an entry for the local interface
      judges the remote end by that entry. */
  lemma CdpMatchRule(local: Endpoint, remote: Endpoint, parsed: Value, index: seq<(string, Value)>,
                     neighbor: seq<(string, Value)>, id: string, port: string)
    requires Parse(local.device, "show cdp neighbors detail") == Ok(parsed)
    requires parsed.Dict? && Find(parsed.entries, "index") == Some(Dict(index))
    requires CdpEntry(index, local.name) == Ok(Some(Dict(neighbor)))
    requires Find(neighbor, "device_id") == Some(Str(id)) || (Find(neighbor, "device_id") == None && id == [])
    requires Find(neighbor, "port_id") == Some(Str(port)) || (Find(neighbor, "port_id") == None && port == [])
    ensures CdpDirection(local, remote).Ok? && |CdpDirection(local, remote).value| <= 1
    ensures var host := SplitHead(id, '.');
      CdpDirection(local, remote).value != [] <==>
        !IsSubstring(Lower(remote.device.name), Lower(host)) || !IsSubstring(Lower(remote.name), Lower(port))
    ensures var host := SplitHead(id, '.');
      !IsSubstring(Lower(remote.device.name), Lower(host)) ==>
        CdpDirection(local, remote).value == [CdpNeighborMismatch(local.device.name, local.name, host, remote.device.name)]
  {
    assert Get(parsed, "index", Dict([])) == Ok(Dict(index));
    assert Items(Dict(index)) == Ok(index);
    assert CdpDirection(local, remote) == CompareNeighbor(local, remote, Dict(neighbor));
    CompareRule(local, remote, neighbor, id, port);
  }

  /** A direction whose CDP table has no entry for the local interface
      reports exactly that. */
  lemma CdpMissingRule(local: Endpoint, remote: Endpoint, parsed: Value, index: seq<(string, Value)>)
    requires Parse(local.device, "show cdp neighbors detail") == Ok(parsed)
    requires parsed.Dict? && Find(parsed.entries, "index") == Some(Dict(index))
    requires forall i :: 0 <= i < |index| ==>
      Unmatched(index[i].1, local.name)
    ensures CdpDirection(local, remote) == Ok([CdpMissing(local.device.name, local.name)])
  {
    assert Get(parsed, "index", Dict([])) == Ok(Dict(index));
    CdpEntryNone(index, local.name);
  }

  lemma {:induction false} CdpEntryNone(entries: seq<(string, Value)>, local: string)
    requires forall i :: 0 <= i < |entries| ==>
      Unmatched(entries[i].1, local)
    ensures CdpEntry(entries, local) == Ok(None)
  {
    if entries != [] {
      forall i | 0 <= i < |entries[1..]|
        ensures Unmatched(entries[1..][i].1, local)
      {
        assert entries[1..][i] == entries[i + 1];
      }
      CdpEntryNone(entries[1..], local);
    }
  }

  // ------------------------------------------------------------------ suite

  function Suite(links: seq<Link>): (outcomes: seq<Outcome<Finding<seq<Detail>>>>)
    ensures |outcomes| == 6
  {
    [ FailTestOr(links, StatusCheck),
      FailTestOr(links, OpticsCheck),
      FailTestOr(links, ErrorsCheck),
      FailTestOr(links, SpeedDuplexCheck),
      FailTestOr(links, MtuCheck),
      FailTestOr(links, CdpCheck) ]
  }

  method RunSuite(links: seq<Link>) returns (outcomes: seq<Outcome<Finding<seq<Detail>>>>)
    ensures outcomes == Suite(links)
  {
    var status := RunFailTestOr(links, StatusCheck);
    var optics := RunFailTestOr(links, OpticsCheck);
    var errors := RunFailTestOr(links, ErrorsCheck);
    var speed := RunFailTestOr(links, SpeedDuplexCheck);
    var mtu := RunFailTestOr(links, MtuCheck);
    var cdp := RunFailTestOr(links, CdpCheck);
    outcomes := [status, optics, errors, speed, mtu, cdp];
  }

  /** Every test is skipped exactly when the topology defines no link. */
  lemma SkippedWithoutLinks(links: seq<Link>)
    ensures forall i :: 0 <= i < 6 ==> (Suite(links)[i].verdict == Skipped <==> links == [])
  {
  }
}

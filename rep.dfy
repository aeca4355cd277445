/** The REP (Resilient Ethernet Protocol) suite: segment presence, role,
    neighbors, open segments, segment id, blocked ports and REP interfaces,
    read from the text of `show rep topology` and related commands. */
module Rep {
  import opened Text
  import opened PyValue
  import opened Testbed
  import opened Verdicts
  import opened Patterns

  /** What a test reports about a device. */
  datatype Issue =
    | NoTopologyOutput
    | NoSegment
    | SegmentMissing(segmentId: Value)
    | RoleUnclear(expectedRole: Value)
    | NeighborsMissing(missingNeighbors: seq<Value>, discovered: set<string>)
    | SegmentOpen
    | SegmentIdMissing(segmentId: Value)
    | BlockedPortMissing(port: Value, blockedPorts: seq<string>)
    | EdgeWithoutBlockedPort
    | NoInterfaceOutput
    | InterfacesMissing(missingInterfaces: seq<Value>, found: set<string>)
    | InterfaceDown(intf: Value)
    | CheckError

  const Topology := "show rep topology"

  // ----------------------------------------------------------------- gating

  /** A REP device: `rep_enabled` is truthy or `rep_segment_id` is not None. */
  predicate IsRepDevice(d: Device) {
    Truthy(CustomGet(d, "rep_enabled", Bool(false))) || CustomGet(d, "rep_segment_id", Null) != Null
  }

  method MarkRepDevices(testbed: seq<Device>) returns (devices: seq<Device>)
    ensures devices == Select(testbed, IsRepDevice)
    ensures forall d :: d in devices <==> d in testbed && IsRepDevice(d)
  {
    devices := Keep(testbed, IsRepDevice);
  }

  /** A segment id of 0 (falsy, but not None) still makes a device a REP device. */
  lemma SegmentZeroQualifies(d: Device)
    requires CustomGet(d, "rep_segment_id", Null) == Int(0)
    ensures IsRepDevice(d) && !Truthy(CustomGet(d, "rep_segment_id", Null))
  {
  }

  // ------------------------------------------------------------- normalizer

  /** `normalize_interface`: lower-case, then gigabitethernet -> gi,
      tengigabitethernet -> te, port-channel -> po, in that order. */
  function NormalizeRep(name: string): string {
    ReplaceAll(ReplaceAll(ReplaceAll(Lower(name), "gigabitethernet", "gi"), "tengigabitethernet", "te"), "port-channel", "po")
  }

  /** `normalize_interface` on a value, which raises unless it is text. */
  function NormalizeRepValue(v: Value): Result<string> {
    match v
    case Str(s) => Ok(NormalizeRep(s))
    case _ => Raised
  }

  /** The first replacement finds "gigabitethernet" inside the ten-gigabit
      long form. */
  lemma ReplaceInsideTen(tail: string)
    requires 'e' !in tail
    ensures ReplaceAll("ten" + "gigabitethernet" + tail, "gigabitethernet", "gi") == "tengi" + tail
  {
    var gig := "gigabitethernet";
    assert gig[7] == 'e';
    if IsSubstring(gig, tail) {
      SubstringChars(gig, tail, 'e');
    }
    ReplaceAbsent(tail, gig, "gi");
    assert (gig + tail)[..|gig|] == gig && (gig + tail)[|gig|..] == tail;
    assert ReplaceAll(gig + tail, gig, "gi") == "gi" + tail;
    ReplaceAfter("ten", gig + tail, gig, "gi");
    assert "ten" + gig + tail == "ten" + (gig + tail);
  }

  /** Because "gigabitethernet" is replaced first, the ten-gigabit long form
      is never seen whole: "TenGigabitEthernet1/0/1" becomes "tengi1/0/1",
      not "te1/0/1". */
  lemma NormalizeTenGigabit(tail: string)
    requires 'e' !in tail && 'h' !in tail && 'o' !in tail
    requires forall c :: c in tail ==> !IsAsciiUpper(c)
    ensures NormalizeRep("TenGigabitEthernet" + tail) == "tengi" + tail
  {
    LowerConcat("TenGigabitEthernet", tail);
    LowerOfLower(tail);
    assert Lower("TenGigabitEthernet") == "ten" + "gigabitethernet";
    ReplaceInsideTen(tail);
    var once := "tengi" + tail;
    var ten := "tengigabitethernet";
    assert ten[12] == 'h';
    if IsSubstring(ten, once) {
      SubstringChars(ten, once, 'h');
    }
    ReplaceAbsent(once, ten, "te");
    var pc := "port-channel";
    assert pc[1] == 'o';
    if IsSubstring(pc, once) {
      SubstringChars(pc, once, 'o');
    }
    ReplaceAbsent(once, pc, "po");
  }

  /** A name with none of the three long forms after lowering only changes case. */
  lemma NormalizeShortRep(name: string)
    requires !IsSubstring("gigabitethernet", Lower(name))
    requires !IsSubstring("tengigabitethernet", Lower(name))
    requires !IsSubstring("port-channel", Lower(name))
    ensures NormalizeRep(name) == Lower(name)
  {
    ReplaceAbsent(Lower(name), "gigabitethernet", "gi");
    ReplaceAbsent(Lower(name), "tengigabitethernet", "te");
    ReplaceAbsent(Lower(name), "port-channel", "po");
  }

  // ---------------------------------------------------------- segment health

  /** The segment-id part of `verify_rep_segment`, on the command's text. */
  function SegmentIdFinding(d: Device, text: string): seq<Finding<Issue>> {
    var id := CustomGet(d, "rep_segment_id", Null);
    if id == Null then []
    else if Search(RepSegment(StrOf(id)), text, false) then []
    else [Finding(d.name, SegmentMissing(id))]
  }

  /** `verify_rep_segment` for one device: a parsed topology is only
      logged; the text, when the parser fails, is searched for the segment. */
  function SegmentCheck(d: Device): seq<Finding<Issue>> {
    match Parse(d, Topology)
    case Ok(payload) =>
      if !Truthy(payload) then [Finding(d.name, NoTopologyOutput)] else []
    case Raised =>
      match Execute(d, Topology)
      case Raised => [Finding(d.name, CheckError)]
      case Ok(text) =>
        if text == [] then [Finding(d.name, NoTopologyOutput)]
        else if !IsSubstring("REP Segment", text) && !IsSubstring("Segment", text) then [Finding(d.name, NoSegment)]
        else SegmentIdFinding(d, text)
  }

  /** On the text path a device fails when its text lacks "Segment"; the
      "REP Segment" test adds nothing, since that text contains "Segment".
      Otherwise it fails exactly when a segment id is expected and the
      text has no `REP\s+Segment\s+<id>\b`. */
  lemma SegmentTextRule(d: Device, text: string)
    requires Parse(d, Topology).Raised? && Execute(d, Topology) == Ok(text) && text != []
    ensures !IsSubstring("Segment", text) ==> SegmentCheck(d) == [Finding(d.name, NoSegment)]
    ensures IsSubstring("Segment", text) ==>
      var id := CustomGet(d, "rep_segment_id", Null);
      SegmentCheck(d) == (if id != Null && !Search(RepSegment(StrOf(id)), text, false) then [Finding(d.name, SegmentMissing(id))] else [])
  {
    if IsSubstring("REP Segment", text) {
      var i :| 0 <= i <= |text| - 11 && OccursAt("REP Segment", text, i);
      assert text[i + 4..i + 11] == "Segment";
      assert OccursAt("Segment", text, i + 4);
    }
  }

  /** On the parsed path only an empty payload is a finding: a parsed
      topology is logged and never searched for the segment id. */
  lemma ParsedSegmentRule(d: Device, payload: Value)
    requires Parse(d, Topology) == Ok(payload)
    ensures !Truthy(payload) ==> SegmentCheck(d) == [Finding(d.name, NoTopologyOutput)]
    ensures Truthy(payload) ==> SegmentCheck(d) == []
  {
  }

  // ------------------------------------------------------------------- role

  const EdgeRoles: seq<string> := ["edge", "primary-edge"]
  const TransitRoles: seq<string> := ["intermediate", "transit"]

  /** The text confirms the (lowered) role. */
  predicate RoleConfirmed(role: string, text: string) {
    if role in EdgeRoles then IsSubstring("Primary Edge", text) || IsSubstring("Edge", text)
    else if role in TransitRoles then IsSubstring("No", text) && !IsSubstring("Edge", text)
    else false
  }

  /** `verify_rep_role` for one device: warnings only; a failed command or
      a role that is not text is only logged. */
  function RoleCheck(d: Device): seq<Finding<Issue>> {
    var role := CustomGet(d, "rep_role", Null);
    if !Truthy(role) then []
    else
      match Execute(d, Topology)
      case Raised => []
      case Ok(text) =>
        match LowerOf(role)
        case Raised => []
        case Ok(r) => if RoleConfirmed(r, text) then [] else [Finding(d.name, RoleUnclear(role))]
  }

  /** An edge role is confirmed exactly when the text holds "Edge"; an
      intermediate role when it holds "No" and not "Edge"; no other role is
      ever confirmed, so it always warns. */
  lemma RoleRule(role: string, text: string)
    ensures Lower(role) in EdgeRoles ==> (RoleConfirmed(Lower(role), text) <==> IsSubstring("Edge", text))
    ensures Lower(role) in TransitRoles ==>
      (RoleConfirmed(Lower(role), text) <==> IsSubstring("No", text) && !IsSubstring("Edge", text))
    ensures Lower(role) !in EdgeRoles + TransitRoles ==> !RoleConfirmed(Lower(role), text)
  {
    if IsSubstring("Primary Edge", text) {
      var i :| 0 <= i <= |text| - 12 && OccursAt("Primary Edge", text, i);
      assert text[i + 8..i + 12] == "Edge";
      assert OccursAt("Edge", text, i + 8);
    }
  }

  // -------------------------------------------------------------- neighbors

  /** `list(set(...))` of the interface names in the text: order is lost. */
  function Discovered(text: string): (r: set<string>)
    ensures forall n :: n in r <==> n in InterfaceMentions(text)
  {
    set n | n in InterfaceMentions(text)
  }

  function NormalizedSet(names: set<string>): (r: set<string>)
    ensures forall n :: n in names ==> NormalizeRep(n) in r
    ensures forall m :: m in r ==> exists n :: n in names && NormalizeRep(n) == m
  {
    set n | n in names :: NormalizeRep(n)
  }

  /** The expected names whose normalized form is not among `normalized`, in
      order; the first one that is not text raises. */
  function MissingNames(expected: seq<Value>, normalized: set<string>): Result<seq<Value>> {
    if expected == [] then Ok([])
    else
      var front :- MissingNames(expected[..|expected| - 1], normalized);
      var name :- NormalizeRepValue(expected[|expected| - 1]);
      Ok(if name in normalized then front else front + [expected[|expected| - 1]])
  }

  /** The comparison loop, appending each expected name not found. */
  method FindMissingNames(expected: seq<Value>, normalized: set<string>) returns (r: Result<seq<Value>>)
    ensures r == MissingNames(expected, normalized)
  {
    var missing := [];
    for i := 0 to |expected|
      invariant MissingNames(expected[..i], normalized) == Ok(missing)
    {
      assert expected[..i + 1][..i] == expected[..i];
      var name := NormalizeRepValue(expected[i]);
      if name.Raised? {
        MissingNamesRaised(expected, normalized, i + 1);
        return Raised;
      }
      if name.value !in normalized {
        missing := missing + [expected[i]];
      }
    }
    assert expected[..|expected|] == expected;
    r := Ok(missing);
  }

  lemma {:induction false} MissingNamesRaised(expected: seq<Value>, normalized: set<string>, k: nat)
    requires k <= |expected| && MissingNames(expected[..k], normalized).Raised?
    ensures MissingNames(expected, normalized).Raised?
    decreases |expected| - k
  {
    if k < |expected| {
      assert expected[..k + 1][..k] == expected[..k];
      MissingNamesRaised(expected, normalized, k + 1);
    } else {
      assert expected[..k] == expected;
    }
  }

  /** Expected names given as text never raise, and a name is missing
      exactly when its normalized form is not among the normalized ones. */
  lemma {:induction false} MissingNamesRule(expected: seq<string>, normalized: set<string>, x: Value)
    ensures MissingNames(Strs(expected), normalized).Ok?
    ensures x in MissingNames(Strs(expected), normalized).value <==>
      x.Str? && x.s in expected && NormalizeRep(x.s) !in normalized
  {
    if expected != [] {
      var n := |expected| - 1;
      MissingNamesRule(expected[..n], normalized, x);
      MissingNamesLast(expected, normalized);
      assert forall e :: e in expected <==> e in expected[..n] || e == expected[n];
    }
  }

  /** One more expected name given as text. */
  lemma MissingNamesLast(expected: seq<string>, normalized: set<string>)
    requires expected != [] && MissingNames(Strs(expected[..|expected| - 1]), normalized).Ok?
    ensures
      var n := |expected| - 1;
      var front := MissingNames(Strs(expected[..n]), normalized).value;
      MissingNames(Strs(expected), normalized) ==
        Ok(if NormalizeRep(expected[n]) in normalized then front else front + [Str(expected[n])])
  {
    var n := |expected| - 1;
    var names := Strs(expected);
    assert names[..n] == Strs(expected[..n]) && names[n] == Str(expected[n]);
  }

  /** `verify_rep_neighbors` for one device. */
  function NeighborCheck(d: Device): seq<Finding<Issue>> {
    var expected := CustomGet(d, "rep_expected_neighbors", List([]));
    match Execute(d, Topology)
    case Raised => [Finding(d.name, CheckError)]
    case Ok(text) =>
      var discovered := Discovered(text);
      if !Truthy(expected) then []
      else
        match Iter(expected)
        case Raised => [Finding(d.name, CheckError)]
        case Ok(names) =>
          match MissingNames(names, NormalizedSet(discovered))
          case Raised => [Finding(d.name, CheckError)]
          case Ok(missing) => if missing == [] then [] else [Finding(d.name, NeighborsMissing(missing, discovered))]
  }

  /** With a list of expected neighbor names, the device's check comes down
      to the names missing from what the text mentions. */
  lemma NeighborCheckOf(d: Device, expected: seq<string>, text: string)
    requires CustomGet(d, "rep_expected_neighbors", List([])) == List(Strs(expected)) && expected != []
    requires Execute(d, Topology) == Ok(text)
    ensures NeighborCheck(d) ==
      match MissingNames(Strs(expected), NormalizedSet(Discovered(text)))
      case Raised => [Finding(d.name, CheckError)]
      case Ok(missing) => if missing == [] then [] else [Finding(d.name, NeighborsMissing(missing, Discovered(text)))]
  {
    assert Truthy(List(Strs(expected))) && Iter(List(Strs(expected))) == Ok(Strs(expected));
  }

  /** With a list of expected neighbor names read without error, the device
      has one finding listing the missing names, or none when none is missing. */
  lemma NeighborRule(d: Device, expected: seq<string>, text: string)
    requires CustomGet(d, "rep_expected_neighbors", List([])) == List(Strs(expected)) && expected != []
    requires Execute(d, Topology) == Ok(text)
    ensures MissingNames(Strs(expected), NormalizedSet(Discovered(text))).Ok?
    ensures var missing := MissingNames(Strs(expected), NormalizedSet(Discovered(text))).value;
      NeighborCheck(d) == if missing == [] then [] else [Finding(d.name, NeighborsMissing(missing, Discovered(text)))]
  {
    MissingNamesRule(expected, NormalizedSet(Discovered(text)), Null);
    NeighborCheckOf(d, expected, text);
  }

  /** An expected neighbor is missing exactly when its normalized form equals
      the normalized form of no name the six patterns find in the text. */
  lemma MissingNeighborRule(expected: seq<string>, text: string, x: Value)
    ensures MissingNames(Strs(expected), NormalizedSet(Discovered(text))).Ok?
    ensures x in MissingNames(Strs(expected), NormalizedSet(Discovered(text))).value <==>
      x.Str? && x.s in expected && forall n :: n in InterfaceMentions(text) ==> NormalizeRep(n) != NormalizeRep(x.s)
  {
    MissingNamesRule(expected, NormalizedSet(Discovered(text)), x);
  }

  // --------------------------------------------------------------- topology

  /** `verify_rep_topology_complete` for one device. */
  function TopologyCheck(d: Device): seq<Finding<Issue>> {
    match Execute(d, Topology)
    case Raised => [Finding(d.name, CheckError)]
    case Ok(text) =>
      if IsSubstring("Open", text) && IsSubstring("Segment", text) && Search(OpenSegment, text, false)
      then [Finding(d.name, SegmentOpen)]
      else []
  }

  /** A device fails exactly when `Open\s+Segment` matches its text: the
      substring tests before the search decide nothing. */
  lemma OpenSegmentRule(d: Device, text: string)
    requires Execute(d, Topology) == Ok(text)
    ensures TopologyCheck(d) == (if Search(OpenSegment, text, false) then [Finding(d.name, SegmentOpen)] else [])
  {
    if Search(OpenSegment, text, false) {
      OpenSegmentHasWords(text);
    }
  }

  /** `verify_rep_segment_id` for one device. */
  function SegmentIdCheck(d: Device): seq<Finding<Issue>> {
    var id := CustomGet(d, "rep_segment_id", Null);
    if id == Null then []
    else
      match Execute(d, Topology)
      case Raised => [Finding(d.name, CheckError)]
      case Ok(text) =>
        if Search(RepSegment(StrOf(id)), text, true) || Search(BareSegment(StrOf(id)), text, false) then []
        else [Finding(d.name, SegmentIdMissing(id))]
  }

  /** Text in which the segment check's case-sensitive `REP\s+Segment\s+<id>\b`
      matches also passes the segment-id check. */
  lemma SegmentIdAgrees(d: Device, text: string)
    requires Execute(d, Topology) == Ok(text)
    requires CustomGet(d, "rep_segment_id", Null) != Null
    requires Search(RepSegment(StrOf(CustomGet(d, "rep_segment_id", Null))), text, false)
    ensures SegmentIdCheck(d) == []
  {
    RepSegmentHasBareSegment(text, StrOf(CustomGet(d, "rep_segment_id", Null)), false);
  }

  /** A device without an expected segment id is never reported; with one,
      a topology command that raises is one error. */
  lemma SegmentIdGuards(d: Device)
    ensures CustomGet(d, "rep_segment_id", Null) == Null ==> SegmentIdCheck(d) == []
    ensures CustomGet(d, "rep_segment_id", Null) != Null && Execute(d, Topology).Raised? ==>
      SegmentIdCheck(d) == [Finding(d.name, CheckError)]
  {
  }

  // ----------------------------------------------------------- blocked ports

  /** For each expected blocked port in turn, an issue when its normalized
      form is not among the blocked ones; a port that is not text ends the
      loop with an error, after the issues already added. */
  function BlockedIssues(expected: seq<Value>, normalized: set<string>, blocked: seq<string>): seq<Issue> {
    if expected == [] then []
    else
      match NormalizeRepValue(expected[0])
      case Raised => [CheckError]
      case Ok(name) =>
        (if name in normalized then [] else [BlockedPortMissing(expected[0], blocked)])
        + BlockedIssues(expected[1..], normalized, blocked)
  }

  method ReportBlocked(expected: seq<Value>, normalized: set<string>, blocked: seq<string>) returns (issues: seq<Issue>)
    ensures issues == BlockedIssues(expected, normalized, blocked)
  {
    issues := [];
    var i := 0;
    while i < |expected|
      invariant 0 <= i <= |expected|
      invariant issues + BlockedIssues(expected[i..], normalized, blocked) == BlockedIssues(expected, normalized, blocked)
    {
      BlockedStep(expected, normalized, blocked, i, issues);
      var name := NormalizeRepValue(expected[i]);
      if name.Raised? {
        issues := issues + [CheckError];
        return;
      }
      if name.value !in normalized {
        issues := issues + [BlockedPortMissing(expected[i], blocked)];
      }
      i := i + 1;
    }
  }

  /** One turn of the loop over the expected blocked ports. */
  lemma BlockedStep(expected: seq<Value>, normalized: set<string>, blocked: seq<string>, i: nat, issues: seq<Issue>)
    requires i < |expected|
    requires issues + BlockedIssues(expected[i..], normalized, blocked) == BlockedIssues(expected, normalized, blocked)
    ensures NormalizeRepValue(expected[i]).Raised? ==> issues + [CheckError] == BlockedIssues(expected, normalized, blocked)
    ensures NormalizeRepValue(expected[i]).Ok? ==>
      var here := if NormalizeRepValue(expected[i]).value in normalized then [] else [BlockedPortMissing(expected[i], blocked)];
      (issues + here) + BlockedIssues(expected[i + 1..], normalized, blocked) == BlockedIssues(expected, normalized, blocked)
  {
    assert expected[i..][0] == expected[i] && expected[i..][1..] == expected[i + 1..];
    var rest := BlockedIssues(expected[i + 1..], normalized, blocked);
    match NormalizeRepValue(expected[i])
    case Raised =>
    case Ok(name) =>
      var here := if name in normalized then [] else [BlockedPortMissing(expected[i], blocked)];
      assert BlockedIssues(expected[i..], normalized, blocked) == here + rest;
      assert issues + (here + rest) == (issues + here) + rest;
  }

  /** `verify_blocked_ports` for one device: issues are only logged. */
  function BlockedCheck(d: Device): seq<Finding<Issue>> {
    var expected := CustomGet(d, "rep_blocked_ports", List([]));
    match Execute(d, Topology)
    case Raised => [Finding(d.name, CheckError)]
    case Ok(text) =>
      var blocked := FindBlocked(text, 0);
      var normalized := set b | b in blocked :: NormalizeRep(b);
      if Truthy(expected) then
        match Iter(expected)
        case Raised => [Finding(d.name, CheckError)]
        case Ok(ports) => Scoped(d.name, BlockedIssues(ports, normalized, blocked))
      else if blocked != [] then []
      else
        match LowerOf(CustomGet(d, "rep_role", Str("")))
        case Raised => [Finding(d.name, CheckError)]
        case Ok(role) => if IsSubstring("edge", role) then [Finding(d.name, EdgeWithoutBlockedPort)] else []
  }

  /** With no expected list, a device has an issue only when nothing is
      blocked and its role, lowered, contains "edge". */
  lemma EdgeWithoutBlockedRule(d: Device, text: string, role: string)
    requires !Truthy(CustomGet(d, "rep_blocked_ports", List([])))
    requires Execute(d, Topology) == Ok(text) && CustomGet(d, "rep_role", Str("")) == Str(role)
    ensures BlockedCheck(d) != [] <==> FindBlocked(text, 0) == [] && IsSubstring("edge", Lower(role))
  {
  }

  /** With text names expected, every issue is about one of them, and each
      name not blocked has one. */
  lemma {:induction false} BlockedIssuesRule(expected: seq<string>, normalized: set<string>, blocked: seq<string>, x: Value)
    ensures BlockedPortMissing(x, blocked) in BlockedIssues(Strs(expected), normalized, blocked) <==>
      x.Str? && x.s in expected && NormalizeRep(x.s) !in normalized
    ensures CheckError !in BlockedIssues(Strs(expected), normalized, blocked)
  {
    if expected != [] {
      assert Strs(expected)[1..] == Strs(expected[1..]);
      BlockedIssuesRule(expected[1..], normalized, blocked, x);
      assert forall e :: e in expected <==> e == expected[0] || e in expected[1..];
    }
  }

  // ------------------------------------------------------------- interfaces

  /** The interface detail, or the topology when that command fails. */
  function InterfaceOutput(d: Device): Result<string> {
    match Execute(d, "show interface rep detail")
    case Ok(text) => Ok(text)
    case Raised => Execute(d, Topology)
  }

  /** `verify_rep_interfaces` for one device. */
  function InterfaceCheck(d: Device): seq<Finding<Issue>> {
    var expected := CustomGet(d, "rep_interfaces", List([]));
    match InterfaceOutput(d)
    case Raised => [Finding(d.name, CheckError)]
    case Ok(text) =>
      if text == [] then [Finding(d.name, NoInterfaceOutput)]
      else
        var found := Discovered(text);
        if !Truthy(expected) then []
        else
          match Iter(expected)
          case Raised => [Finding(d.name, CheckError)]
          case Ok(names) =>
            match MissingNames(names, NormalizedSet(found))
            case Raised => [Finding(d.name, CheckError)]
            case Ok(missing) => if missing == [] then [] else [Finding(d.name, InterfacesMissing(missing, found))]
  }

  /** The topology is read only when the interface detail command raises;
      output that cannot be read at all is one error, empty output one
      finding, and with no expected interfaces nothing more is checked. */
  lemma InterfaceOutputRule(d: Device)
    ensures Execute(d, "show interface rep detail").Ok? ==> InterfaceOutput(d) == Execute(d, "show interface rep detail")
    ensures Execute(d, "show interface rep detail").Raised? ==> InterfaceOutput(d) == Execute(d, Topology)
    ensures InterfaceOutput(d).Raised? ==> InterfaceCheck(d) == [Finding(d.name, CheckError)]
    ensures InterfaceOutput(d) == Ok([]) ==> InterfaceCheck(d) == [Finding(d.name, NoInterfaceOutput)]
    ensures InterfaceOutput(d).Ok? && InterfaceOutput(d).value != [] && !Truthy(CustomGet(d, "rep_interfaces", List([]))) ==>
      InterfaceCheck(d) == []
  {
  }

  /** With a list of expected interfaces and non-empty output, the device
      has one finding listing exactly the interfaces whose normalized form
      no discovered name shares, beside the names discovered, or none when
      none is missing. */
  lemma InterfaceRule(d: Device, expected: seq<string>, text: string, x: Value)
    requires CustomGet(d, "rep_interfaces", List([])) == List(Strs(expected)) && expected != []
    requires InterfaceOutput(d) == Ok(text) && text != []
    ensures MissingNames(Strs(expected), NormalizedSet(Discovered(text))).Ok?
    ensures var missing := MissingNames(Strs(expected), NormalizedSet(Discovered(text))).value;
      InterfaceCheck(d) == if missing == [] then [] else [Finding(d.name, InterfacesMissing(missing, Discovered(text)))]
    ensures x in MissingNames(Strs(expected), NormalizedSet(Discovered(text))).value <==>
      x.Str? && x.s in expected && forall n :: n in InterfaceMentions(text) ==> NormalizeRep(n) != NormalizeRep(x.s)
  {
    MissingNeighborRule(expected, text, x);
    assert Truthy(List(Strs(expected))) && Iter(List(Strs(expected))) == Ok(Strs(expected));
  }

  /** The status of one expected interface; a failed command is only logged. */
  function InterfaceStatus(d: Device, intf: Value): seq<Finding<Issue>> {
    match Execute(d, "show interface " + StrOf(intf))
    case Raised => []
    case Ok(out) => if IsSubstring("line protocol is up", Lower(out)) then [] else [Finding(d.name, InterfaceDown(intf))]
  }

  /** `verify_rep_interface_status` for one device. */
  function InterfaceStatusCheck(d: Device): seq<Finding<Issue>> {
    var expected := CustomGet(d, "rep_interfaces", List([]));
    if !Truthy(expected) then []
    else
      match Iter(expected)
      case Raised => [Finding(d.name, CheckError)]
      case Ok(names) => Gather(names, intf => InterfaceStatus(d, intf))
  }

  /** An interface is reported down exactly when its output, lowered, lacks
      "line protocol is up"; one whose command fails is not reported. */
  lemma InterfaceStatusRule(d: Device, names: seq<Value>, x: Value)
    requires CustomGet(d, "rep_interfaces", List([])) == List(names) && names != []
    ensures Finding(d.name, InterfaceDown(x)) in InterfaceStatusCheck(d) <==>
      x in names && Execute(d, "show interface " + StrOf(x)).Ok? &&
      !IsSubstring("line protocol is up", Lower(Execute(d, "show interface " + StrOf(x)).value))
  {
    GatherMember(names, intf => InterfaceStatus(d, intf), Finding(d.name, InterfaceDown(x)));
  }

  // -------------------------------------------------------------- the suite

  /** Role and blocked-port issues are only logged; every other test fails
      on a finding. */
  function Suite(testbed: seq<Device>): seq<Outcome<Finding<Issue>>> {
    var devices := Select(testbed, IsRepDevice);
    [ FailTest(devices, SegmentCheck),
      WarnTest(devices, RoleCheck),
      FailTest(devices, NeighborCheck),
      FailTest(devices, TopologyCheck),
      FailTest(devices, SegmentIdCheck),
      WarnTest(devices, BlockedCheck),
      FailTest(devices, InterfaceCheck),
      FailTest(devices, InterfaceStatusCheck) ]
  }

  method RunSuite(testbed: seq<Device>) returns (outcomes: seq<Outcome<Finding<Issue>>>)
    ensures outcomes == Suite(testbed)
  {
    var devices := MarkRepDevices(testbed);
    var segment := RunFailTest(devices, SegmentCheck);
    var role := RunWarnTest(devices, RoleCheck);
    var neighbors := RunFailTest(devices, NeighborCheck);
    var topology := RunFailTest(devices, TopologyCheck);
    var segmentId := RunFailTest(devices, SegmentIdCheck);
    var blocked := RunWarnTest(devices, BlockedCheck);
    var interfaces := RunFailTest(devices, InterfaceCheck);
    var status := RunFailTest(devices, InterfaceStatusCheck);
    outcomes := [segment, role, neighbors, topology, segmentId, blocked, interfaces, status];
  }

  /** Blocked-port and role issues never fail their tests. */
  lemma WarningTestsNeverFail(testbed: seq<Device>)
    ensures Suite(testbed)[1].verdict != Failed && Suite(testbed)[5].verdict != Failed
    ensures Suite(testbed)[1].failures == [] && Suite(testbed)[5].failures == []
  {
    var devices := Select(testbed, IsRepDevice);
    WarnTestNeverFails(devices, RoleCheck);
    WarnTestNeverFails(devices, BlockedCheck);
  }

  /** Every test is skipped exactly when no device is a REP device. */
  lemma SkippedWithoutDevices(testbed: seq<Device>)
    ensures (forall d :: d in testbed ==> !IsRepDevice(d)) <==>
            (forall i :: 0 <= i < |Suite(testbed)| ==> Suite(testbed)[i].verdict == Skipped)
  {
    var devices := Select(testbed, IsRepDevice);
    SelectEmpty(testbed, IsRepDevice);
    if devices != [] {
      assert Suite(testbed)[0] == FailTest(devices, SegmentCheck);
      assert Suite(testbed)[0].verdict != Skipped;
    }
  }
}

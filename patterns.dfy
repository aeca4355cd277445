/** The fixed regular expressions the REP checks apply to CLI text, as
    predicates and scanners over strings. Only the constructs those patterns
    use are covered: literal text (optionally matched ignoring ASCII case),
    `\s+`, `\b`, and the capturing scanners behind `re.findall`. */
module Patterns {
  import opened Text

  /** One piece of a pattern searched with `re.search`. */
  datatype Token =
    | Lit(text: string)
    | Spaces
    | Boundary

  /** `a` and `b` are equal, ignoring ASCII case when `fold` is set. */
  predicate SameText(a: string, b: string, fold: bool) {
    if fold then Lower(a) == Lower(b) else a == b
  }

  predicate AllSpace(s: string, i: nat, j: nat)
    requires i <= j <= |s|
  {
    forall k | i <= k < j :: IsSpace(s[k])
  }

  predicate WordAt(s: string, i: int) {
    0 <= i < |s| && IsWordChar(s[i])
  }

  /** `\b` at position `i`: a word character on exactly one side. */
  predicate BoundaryAt(s: string, i: int) {
    WordAt(s, i - 1) != WordAt(s, i)
  }

  /** The pattern matches `s` starting at position `i`. */
  predicate MatchFrom(s: string, i: nat, pat: seq<Token>, fold: bool)
    requires i <= |s|
    decreases |pat|
  {
    if pat == [] then true
    else
      match pat[0]
      case Lit(t) =>
        i + |t| <= |s| && SameText(s[i..i + |t|], t, fold) && MatchFrom(s, i + |t|, pat[1..], fold)
      case Spaces =>
        exists j | i < j <= |s| :: AllSpace(s, i, j) && MatchFrom(s, j, pat[1..], fold)
      case Boundary =>
        BoundaryAt(s, i) && MatchFrom(s, i, pat[1..], fold)
  }

  /** `re.search(pattern, s)` finds a match, `re.IGNORECASE` when `fold`. */
  predicate Search(pat: seq<Token>, s: string, fold: bool) {
    exists i | 0 <= i <= |s| :: MatchFrom(s, i, pat, fold)
  }

  /** `REP\s+Segment\s+<id>\b` */
  function RepSegment(id: string): seq<Token> {
    [Lit("REP"), Spaces, Lit("Segment"), Spaces, Lit(id), Boundary]
  }

  /** `Segment\s+<id>\b` */
  function BareSegment(id: string): seq<Token> {
    [Lit("Segment"), Spaces, Lit(id), Boundary]
  }

  /** `Open\s+Segment` */
  const OpenSegment: seq<Token> := [Lit("Open"), Spaces, Lit("Segment")]

  /** Every match of `REP\s+Segment\s+<id>\b` contains a match of `Segment\s+<id>\b`. */
  lemma RepSegmentHasBareSegment(s: string, id: string, fold: bool)
    requires Search(RepSegment(id), s, fold)
    ensures Search(BareSegment(id), s, fold)
  {
    var pat := RepSegment(id);
    var i :| 0 <= i <= |s| && MatchFrom(s, i, pat, fold);
    assert pat[1..] == [Spaces] + BareSegment(id);
    assert MatchFrom(s, i + 3, pat[1..], fold);
    var j :| i + 3 < j <= |s| && AllSpace(s, i + 3, j) && MatchFrom(s, j, pat[1..][1..], fold);
    assert pat[1..][1..] == BareSegment(id);
  }

  /** A literal piece that matches is a substring. */
  lemma LitIsSubstring(s: string, i: nat, t: string)
    requires i + |t| <= |s| && s[i..i + |t|] == t
    ensures IsSubstring(t, s)
  {
    assert OccursAt(t, s, i);
  }

  /** A match of `Open\s+Segment` already contains both words, so the
      substring tests the topology check makes before searching decide nothing. */
  lemma OpenSegmentHasWords(s: string)
    requires Search(OpenSegment, s, false)
    ensures IsSubstring("Open", s) && IsSubstring("Segment", s)
  {
    var i :| 0 <= i <= |s| && MatchFrom(s, i, OpenSegment, false);
    LitIsSubstring(s, i, "Open");
    var rest := OpenSegment[1..];
    assert MatchFrom(s, i + 4, rest, false);
    var j :| i + 4 < j <= |s| && AllSpace(s, i + 4, j) && MatchFrom(s, j, rest[1..], false);
    assert rest[1..] == [Lit("Segment")];
    LitIsSubstring(s, j, "Segment");
  }

  /** A case-sensitive match is also a match ignoring case. */
  lemma {:induction false} MatchIgnoringCase(s: string, i: nat, pat: seq<Token>)
    requires i <= |s| && MatchFrom(s, i, pat, false)
    ensures MatchFrom(s, i, pat, true)
    decreases |pat|
  {
    if pat != [] {
      match pat[0]
      case Lit(t) =>
        MatchIgnoringCase(s, i + |t|, pat[1..]);
      case Spaces =>
        var j :| i < j <= |s| && AllSpace(s, i, j) && MatchFrom(s, j, pat[1..], false);
        MatchIgnoringCase(s, j, pat[1..]);
      case Boundary =>
        MatchIgnoringCase(s, i, pat[1..]);
    }
  }

  // ---- re.findall for the capturing patterns ----

  /** The character classes the scanners use: `[\d/]` and `\d`. */
  datatype Class = DigitOrSlash | DigitOnly

  predicate InClass(c: char, cls: Class) {
    IsDigit(c) || (cls == DigitOrSlash && c == '/')
  }

  /** The end of the longest run of `cls` characters from `i`. */
  function RunEnd(s: string, i: nat, cls: Class): (e: nat)
    requires i <= |s|
    ensures i <= e <= |s|
    ensures forall k | i <= k < e :: InClass(s[k], cls)
    ensures e < |s| ==> !InClass(s[e], cls)
    decreases |s| - i
  {
    if i < |s| && InClass(s[i], cls) then RunEnd(s, i + 1, cls) else i
  }

  /** The end of the longest run of whitespace from `i`. */
  function SpaceEnd(s: string, i: nat): (e: nat)
    requires i <= |s|
    ensures i <= e <= |s|
    ensures AllSpace(s, i, e)
    ensures e < |s| ==> !IsSpace(s[e])
    decreases |s| - i
  {
    if i < |s| && IsSpace(s[i]) then SpaceEnd(s, i + 1) else i
  }

  /** The match of `(<lit>[\d/]+)` (or `(<lit>\d+)`) at `i`, as its end.
      The run is greedy and nothing follows it, so its longest run is the match. */
  function RunMatchAt(s: string, i: nat, lit: string, cls: Class): (r: Option<nat>)
    requires i <= |s|
    ensures r.Some? ==> i + |lit| < r.value <= |s|
  {
    if OccursAt(lit, s, i) && i + |lit| < |s| && InClass(s[i + |lit|], cls) then
      Some(RunEnd(s, i + |lit|, cls))
    else None
  }

  /** `re.findall(r'(<lit>[\d/]+)', s[i:])`: matches, leftmost first, never overlapping. */
  function FindRuns(s: string, i: nat, lit: string, cls: Class): (found: seq<string>)
    requires i <= |s|
    ensures forall m :: m in found ==> StartsWith(m, lit) && |m| > |lit|
    decreases |s| - i
  {
    if i == |s| then []
    else
      match RunMatchAt(s, i, lit, cls)
      case Some(e) =>
        assert s[i..e][..|lit|] == s[i..i + |lit|];
        [s[i..e]] + FindRuns(s, e, lit, cls)
      case None => FindRuns(s, i + 1, lit, cls)
  }

  /** The six REP interface patterns, in the order they are tried:
      `(GigabitEthernet[\d/]+)`, `(Gi[\d/]+)`, `(TenGigabitEthernet[\d/]+)`,
      `(Te[\d/]+)`, `(Port-channel\d+)`, `(Po\d+)`. */
  const InterfacePatterns: seq<(string, Class)> := [
    ("GigabitEthernet", DigitOrSlash), ("Gi", DigitOrSlash),
    ("TenGigabitEthernet", DigitOrSlash), ("Te", DigitOrSlash),
    ("Port-channel", DigitOnly), ("Po", DigitOnly)]

  /** The matches of each pattern in turn, appended. */
  function Appended<P>(ps: seq<P>, f: P -> seq<string>): seq<string> {
    if ps == [] then []
    else Appended(ps[..|ps| - 1], f) + f(ps[|ps| - 1])
  }

  /** Appending keeps exactly what some pattern contributed. */
  lemma {:induction false} AppendedRule<P>(ps: seq<P>, f: P -> seq<string>, m: string)
    ensures m in Appended(ps, f) <==> exists k :: 0 <= k < |ps| && m in f(ps[k])
  {
    if ps != [] {
      var n := |ps| - 1;
      var front := ps[..n];
      AppendedRule(front, f, m);
      if m in Appended(front, f) {
        var k :| 0 <= k < |front| && m in f(front[k]);
        assert front[k] == ps[k];
      } else if m !in f(ps[n]) {
        forall k | 0 <= k < |ps|
          ensures m !in f(ps[k])
        {
          if k < n {
            assert front[k] == ps[k];
          }
        }
      }
    }
  }

  /** The matches of one `(literal, class)` pattern in the whole text. */
  function RunsOf(s: string): ((string, Class)) -> seq<string> {
    (p: (string, Class)) => FindRuns(s, 0, p.0, p.1)
  }

  /** The matches of each pattern in turn, appended. */
  function Mentions(s: string, patterns: seq<(string, Class)>): seq<string> {
    Appended(patterns, RunsOf(s))
  }

  /** A name is mentioned exactly when one of the patterns finds it. */
  lemma MentionsRule(s: string, patterns: seq<(string, Class)>, m: string)
    ensures m in Mentions(s, patterns) <==>
      exists k :: 0 <= k < |patterns| && m in FindRuns(s, 0, patterns[k].0, patterns[k].1)
  {
    AppendedRule(patterns, RunsOf(s), m);
  }

  /** The interface names the six REP interface patterns pick out of CLI
      text, pattern by pattern. */
  function InterfaceMentions(s: string): seq<string> {
    Mentions(s, InterfacePatterns)
  }

  /** The loop over the patterns, extending the list with each one's matches. */
  method FindMentions(s: string, patterns: seq<(string, Class)>) returns (found: seq<string>)
    ensures found == Mentions(s, patterns)
  {
    found := [];
    for i := 0 to |patterns|
      invariant found == Mentions(s, patterns[..i])
    {
      assert patterns[..i + 1][..i] == patterns[..i];
      var (lit, cls) := patterns[i];
      assert Mentions(s, patterns[..i + 1]) == Mentions(s, patterns[..i]) + RunsOf(s)(patterns[i]);
      found := found + FindRuns(s, 0, lit, cls);
    }
    assert patterns[..|patterns|] == patterns;
  }

  /** The six REP interface patterns run over the text. */
  method FindInterfaceMentions(s: string) returns (found: seq<string>)
    ensures found == InterfaceMentions(s)
  {
    found := FindMentions(s, InterfacePatterns);
  }

  /** The interface-name prefixes of the blocked-port pattern, in the order
      the alternation tries them. */
  const BlockedPrefixes: seq<string> :=
    ["Gi", "GigabitEthernet", "Te", "TenGigabitEthernet", "Po", "Port-channel"]

  /** The end of `\s+(?:BLK|BLOCKED)` from `e`, ignoring case. */
  function BlockedTail(s: string, e: nat): (r: Option<nat>)
    requires e <= |s|
    ensures r.Some? ==> e < r.value <= |s|
  {
    var w := SpaceEnd(s, e);
    if w == e then None
    else if w + 3 <= |s| && SameText(s[w..w + 3], "BLK", true) then Some(w + 3)
    else if w + 7 <= |s| && SameText(s[w..w + 7], "BLOCKED", true) then Some(w + 7)
    else None
  }

  /** The match of the blocked-port pattern at `i`, trying the alternatives
      from `alts` in order: the captured name and where the match ends.
      The digit run cannot be followed by a digit, and the whitespace run by
      whitespace, so the longest runs are the only ones that can match. */
  function BlockedMatchAt(s: string, i: nat, alts: seq<string>): (r: Option<(string, nat)>)
    requires i <= |s|
    ensures r.Some? ==> i < r.value.1 <= |s|
  {
    if alts == [] then None
    else
      var a := alts[0];
      if i + |a| < |s| && SameText(s[i..i + |a|], a, true) && InClass(s[i + |a|], DigitOrSlash) then
        var e := RunEnd(s, i + |a|, DigitOrSlash);
        match BlockedTail(s, e)
        case Some(end) => Some((s[i..e], end))
        case None => BlockedMatchAt(s, i, alts[1..])
      else BlockedMatchAt(s, i, alts[1..])
  }

  /** `re.findall(blk_pattern, s[i:], re.IGNORECASE)`: the captured names. */
  function FindBlocked(s: string, i: nat): seq<string>
    requires i <= |s|
    decreases |s| - i
  {
    if i == |s| then []
    else
      match BlockedMatchAt(s, i, BlockedPrefixes)
      case Some(m) => [m.0] + FindBlocked(s, m.1)
      case None => FindBlocked(s, i + 1)
  }
}

/** String operations with the meaning Python gives them (`str.lower`,
    `str.replace`, `str.split`, `str.rstrip`, `in`, `int(...)`, `str(int)`),
    restricted to ASCII wherever Python consults Unicode tables. */
module Text {

  datatype Option<+T> = None | Some(value: T)

  predicate IsAsciiUpper(c: char) { 'A' <= c <= 'Z' }

  predicate IsAsciiLower(c: char) { 'a' <= c <= 'z' }

  predicate IsDigit(c: char) { '0' <= c <= '9' }

  /** `c.isspace()`, which is also what the regex class `\s` accepts. */
  predicate IsSpace(c: char) {
    c == ' ' || 9 <= c as int <= 13 || 28 <= c as int <= 31
  }

  /** The regex class `\w`. */
  predicate IsWordChar(c: char) {
    IsAsciiUpper(c) || IsAsciiLower(c) || IsDigit(c) || c == '_'
  }

  function LowerChar(c: char): char {
    if IsAsciiUpper(c) then (c as int + 32) as char else c
  }

  function UpperChar(c: char): char {
    if IsAsciiLower(c) then (c as int - 32) as char else c
  }

  /** `s.lower()` */
  function Lower(s: string): string {
    seq(|s|, i requires 0 <= i < |s| => LowerChar(s[i]))
  }

  /** `s.upper()` */
  function Upper(s: string): string {
    seq(|s|, i requires 0 <= i < |s| => UpperChar(s[i]))
  }

  /** `s.startswith(prefix)` */
  predicate StartsWith(s: string, prefix: string) {
    |prefix| <= |s| && s[..|prefix|] == prefix
  }

  /** `sub` occurs in `s` starting at index `i`. */
  predicate OccursAt(sub: string, s: string, i: int) {
    0 <= i <= |s| - |sub| && s[i..i + |sub|] == sub
  }

  /** `sub in s` */
  predicate IsSubstring(sub: string, s: string) {
    exists i | 0 <= i <= |s| - |sub| :: OccursAt(sub, s, i)
  }

  /** `s.replace(old, new)`: every non-overlapping occurrence, left to right. */
  function ReplaceAll(s: string, pat: string, repl: string): string
    requires pat != []
    decreases |s|
  {
    if |s| < |pat| then s
    else if s[..|pat|] == pat then repl + ReplaceAll(s[|pat|..], pat, repl)
    else [s[0]] + ReplaceAll(s[1..], pat, repl)
  }

  /** `s.split(sep)[0]`: the longest prefix of `s` free of `sep`. */
  function SplitHead(s: string, sep: char): (r: string)
    ensures StartsWith(s, r) && sep !in r
    ensures |r| < |s| ==> s[|r|] == sep
  {
    if s == [] || s[0] == sep then [] else [s[0]] + SplitHead(s[1..], sep)
  }

  /** `s.split(sep)` */
  function Split(s: string, sep: char): (parts: seq<string>)
    ensures |parts| >= 1 && parts[0] == SplitHead(s, sep)
    decreases |s|
  {
    var head := SplitHead(s, sep);
    if |head| == |s| then [s] else [head] + Split(s[|head| + 1..], sep)
  }

  /** The text before the first separator is the first field. */
  lemma {:induction false} SplitHeadOf(a: string, sep: char, rest: string)
    requires sep !in a
    ensures SplitHead(a + [sep] + rest, sep) == a
    ensures SplitHead(a, sep) == a
  {
    if a != [] {
      SplitHeadOf(a[1..], sep, rest);
      assert (a + [sep] + rest)[1..] == a[1..] + [sep] + rest;
      assert a == [a[0]] + a[1..];
    }
  }

  /** A field free of the separator, then the separator, splits off as the first field. */
  lemma SplitAt(a: string, sep: char, rest: string)
    requires sep !in a
    ensures Split(a + [sep] + rest, sep) == [a] + Split(rest, sep)
  {
    var s := a + [sep] + rest;
    SplitHeadOf(a, sep, rest);
    assert s[|a| + 1..] == rest;
  }

  /** Three fields free of the separator, joined by it, split back into themselves. */
  lemma SplitFields(a: string, b: string, c: string, sep: char)
    requires sep !in a && sep !in b && sep !in c
    ensures Split(a + [sep] + b + [sep] + c, sep) == [a, b, c]
  {
    calc {
      Split(a + [sep] + b + [sep] + c, sep);
      { assert a + [sep] + b + [sep] + c == a + [sep] + (b + [sep] + c); }
      Split(a + [sep] + (b + [sep] + c), sep);
      { SplitAt(a, sep, b + [sep] + c); }
      [a] + Split(b + [sep] + c, sep);
      { SplitAt(b, sep, c); }
      [a] + ([b] + Split(c, sep));
      { SplitHeadOf(c, sep, []); }
      [a] + ([b] + [c]);
    }
  }

  /** `s.rstrip(c)` */
  function RStrip(s: string, c: char): (r: string)
    ensures StartsWith(s, r)
    ensures r == [] || r[|r| - 1] != c
    ensures forall i :: |r| <= i < |s| ==> s[i] == c
  {
    if s == [] || s[|s| - 1] != c then s else RStrip(s[..|s| - 1], c)
  }

  /** `s.strip()` of whitespace. */
  function Strip(s: string): string
    decreases |s|
  {
    if s != [] && IsSpace(s[0]) then Strip(s[1..])
    else if s != [] && IsSpace(s[|s| - 1]) then Strip(s[..|s| - 1])
    else s
  }

  function DigitChar(d: nat): char
    requires d < 10
  {
    ('0' as int + d) as char
  }

  function NatDecimal(n: nat): string
  {
    if n < 10 then [DigitChar(n)] else NatDecimal(n / 10) + [DigitChar(n % 10)]
  }

  /** `str(n)` for an int. */
  function Decimal(n: int): string
  {
    if n < 0 then "-" + NatDecimal(-n) else NatDecimal(n)
  }

  /** The digits Python's `int()` accepts after the sign: at least one digit,
      single underscores only between digits. */
  predicate WellFormedDigits(s: string) {
    && s != []
    && IsDigit(s[0]) && IsDigit(s[|s| - 1])
    && (forall i :: 0 <= i < |s| ==> IsDigit(s[i]) || s[i] == '_')
    && (forall i :: 0 <= i < |s| - 1 ==> !(s[i] == '_' && s[i + 1] == '_'))
  }

  /** The value of a digit string, underscores skipped. */
  function DigitsValue(s: string): nat
  {
    if s == [] then 0
    else if IsDigit(s[|s| - 1]) then DigitsValue(s[..|s| - 1]) * 10 + (s[|s| - 1] as int - '0' as int)
    else DigitsValue(s[..|s| - 1])
  }

  /** `int(s)` for a string: `None` where Python raises `ValueError`. */
  function ParseInt(s: string): Option<int>
  {
    var t := Strip(s);
    if t != [] && (t[0] == '-' || t[0] == '+') then
      if WellFormedDigits(t[1..]) then
        Some(if t[0] == '-' then -(DigitsValue(t[1..]) as int) else DigitsValue(t[1..]))
      else None
    else if WellFormedDigits(t) then Some(DigitsValue(t))
    else None
  }

  lemma {:induction false} NatDecimalDigits(n: nat)
    ensures NatDecimal(n) != []
    ensures forall i :: 0 <= i < |NatDecimal(n)| ==> IsDigit(NatDecimal(n)[i])
    ensures DigitsValue(NatDecimal(n)) == n
  {
    if n >= 10 {
      NatDecimalDigits(n / 10);
      var s := NatDecimal(n);
      assert s[..|s| - 1] == NatDecimal(n / 10);
    }
  }

  lemma StripDigits(s: string)
    requires s != [] && !IsSpace(s[0]) && !IsSpace(s[|s| - 1])
    ensures Strip(s) == s
  {
  }

  /** `int(str(n)) == n`: the decimal rendering of an int parses back. */
  lemma {:induction false} ParseDecimal(n: int)
    ensures ParseInt(Decimal(n)) == Some(n)
  {
    if n < 0 {
      NatDecimalDigits(-n);
      var d := NatDecimal(-n);
      var s := "-" + d;
      assert s[1..] == d;
      StripDigits(s);
    } else {
      NatDecimalDigits(n);
      StripDigits(NatDecimal(n));
    }
  }

  /** `int(str(n)) == n` for a natural number. */
  lemma ParseNatDecimal(n: nat)
    ensures ParseInt(NatDecimal(n)) == Some(n)
  {
    ParseDecimal(n);
    assert Decimal(n) == NatDecimal(n);
  }

  lemma {:induction false} SubstringOfTail(sub: string, s: string)
    requires s != [] && IsSubstring(sub, s[1..])
    ensures IsSubstring(sub, s)
  {
    var i :| 0 <= i <= |s[1..]| - |sub| && OccursAt(sub, s[1..], i);
    assert s[i + 1..i + 1 + |sub|] == sub;
    assert OccursAt(sub, s, i + 1);
  }

  /** Every character of a substring occurs in the string. */
  lemma SubstringChars(sub: string, s: string, c: char)
    requires IsSubstring(sub, s) && c in sub
    ensures c in s
  {
    var i :| 0 <= i <= |s| - |sub| && OccursAt(sub, s, i);
    var k :| 0 <= k < |sub| && sub[k] == c;
    assert s[i + k] == s[i..i + |sub|][k];
  }

  /** Characters that cannot start the pattern pass through unchanged. */
  lemma {:induction false} ReplaceAfter(p: string, rest: string, pat: string, repl: string)
    requires pat != [] && pat[0] !in p
    ensures ReplaceAll(p + rest, pat, repl) == p + ReplaceAll(rest, pat, repl)
    decreases |p|
  {
    if p != [] {
      var s := p + rest;
      ReplaceAfter(p[1..], rest, pat, repl);
      assert s[1..] == p[1..] + rest;
      if |s| < |pat| {
        assert ReplaceAll(rest, pat, repl) == rest;
      } else {
        assert s[..|pat|][0] == p[0];
        assert ReplaceAll(s, pat, repl) == [p[0]] + ReplaceAll(p[1..] + rest, pat, repl);
      }
      assert [p[0]] + (p[1..] + ReplaceAll(rest, pat, repl)) == p + ReplaceAll(rest, pat, repl);
    } else {
      assert p + rest == rest;
    }
  }

  /** `s.replace(old, new)` leaves a string that never contains `old` untouched. */
  lemma {:induction false} ReplaceAbsent(s: string, pat: string, repl: string)
    requires pat != [] && !IsSubstring(pat, s)
    ensures ReplaceAll(s, pat, repl) == s
    decreases |s|
  {
    if |s| >= |pat| {
      assert s[0..0 + |pat|] == s[..|pat|];
      assert !OccursAt(pat, s, 0);
      if !IsSubstring(pat, s[1..]) {
        ReplaceAbsent(s[1..], pat, repl);
      } else {
        SubstringOfTail(pat, s);
      }
    }
  }

  /** `s.replace(c, '')` deletes every `c` and keeps every other character. */
  lemma {:induction false} DeleteChar(s: string, c: char)
    ensures c !in ReplaceAll(s, [c], "")
    ensures forall x :: x != c ==> (x in s <==> x in ReplaceAll(s, [c], ""))
    decreases |s|
  {
    if |s| >= 1 {
      DeleteChar(s[1..], c);
      assert s == [s[0]] + s[1..];
      assert s[..1] == [s[0]];
    }
  }

  /** Deleting one character distributes over concatenation. */
  lemma {:induction false} DeleteCharConcat(a: string, b: string, c: char)
    ensures ReplaceAll(a + b, [c], "") == ReplaceAll(a, [c], "") + ReplaceAll(b, [c], "")
    decreases |a|
  {
    if a == [] {
      assert a + b == b;
    } else {
      DeleteCharConcat(a[1..], b, c);
      assert (a + b)[1..] == a[1..] + b;
      assert (a + b)[..1] == a[..1];
    }
  }

  /** Upper-casing first changes nothing a later lower-casing would not. */
  lemma LowerOfUpper(s: string)
    ensures Lower(Upper(s)) == Lower(s)
  {
  }

  lemma LowerConcat(a: string, b: string)
    ensures Lower(a + b) == Lower(a) + Lower(b)
  {
  }

  /** Text without upper-case letters is its own lower-case form. */
  lemma LowerOfLower(s: string)
    requires forall c :: c in s ==> !IsAsciiUpper(c)
    ensures Lower(s) == s
  {
  }

  /** Lowering twice is lowering once. */
  lemma LowerIdempotent(s: string)
    ensures Lower(Lower(s)) == Lower(s)
  {
  }

  /** Every `x in s` survives lowering as a substring test on lowered strings. */
  lemma {:induction false} LowerPreservesSubstring(sub: string, s: string)
    requires IsSubstring(sub, s)
    ensures IsSubstring(Lower(sub), Lower(s))
  {
    var i :| 0 <= i <= |s| - |sub| && OccursAt(sub, s, i);
    assert Lower(s)[i..i + |sub|] == Lower(sub);
    assert OccursAt(Lower(sub), Lower(s), i);
  }
}

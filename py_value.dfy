/** The values a structured device parser returns and a device's `custom`
    attribute bag holds, and the Python operations the checkers apply to them.
    An operation Python would answer with an exception returns `Raised`. */
module PyValue {
  import opened Text

  /** A Python value: `None`, a bool, an int, a float (held as a whole
      number of hundredths), a str, a list, or a dict whose entries keep their
      insertion order. */
  datatype Value =
    | Null
    | Bool(b: bool)
    | Int(i: int)
    | Real(centi: int)
    | Str(s: string)
    | List(items: seq<Value>)
    | Dict(entries: seq<(string, Value)>)

  /** Either a result or an exception; which exception is not kept, because
      every handler in the checkers catches `Exception` as a whole. */
  datatype Result<+T> = Ok(value: T) | Raised {
    predicate IsFailure() { Raised? }

    function PropagateFailure<U>(): Result<U>
      requires Raised?
    {
      Raised
    }

    function Extract(): T
      requires Ok?
    {
      value
    }
  }

  /** `bool(v)` */
  predicate Truthy(v: Value) {
    match v
    case Null => false
    case Bool(b) => b
    case Int(i) => i != 0
    case Real(c) => c != 0
    case Str(s) => s != []
    case List(items) => items != []
    case Dict(entries) => entries != []
  }

  function Keys(entries: seq<(string, Value)>): seq<string> {
    seq(|entries|, i requires 0 <= i < |entries| => entries[i].0)
  }

  /** The value stored under `key`: the first entry that has it. */
  function Find(entries: seq<(string, Value)>, key: string): (r: Option<Value>)
    ensures r.Some? <==> key in Keys(entries)
    ensures r.Some? ==> exists i :: 0 <= i < |entries| && entries[i] == (key, r.value)
  {
    if entries == [] then None
    else if entries[0].0 == key then
      assert Keys(entries)[0] == key;
      assert entries[0] == (key, entries[0].1);
      Some(entries[0].1)
    else
      var r := Find(entries[1..], key);
      assert Keys(entries) == [entries[0].0] + Keys(entries[1..]);
      assert r.Some? ==> exists i :: 0 <= i < |entries[1..]| && entries[1..][i] == (key, r.value);
      r
  }

  /** `key in v` */
  function In(key: string, v: Value): Result<bool> {
    match v
    case Dict(entries) => Ok(key in Keys(entries))
    case Str(s) => Ok(IsSubstring(key, s))
    case List(items) => Ok(Str(key) in items)
    case _ => Raised
  }

  /** `v.get(key, default)` */
  function Get(v: Value, key: string, default: Value): Result<Value> {
    match v
    case Dict(entries) =>
      (match Find(entries, key)
       case Some(x) => Ok(x)
       case None => Ok(default))
    case _ => Raised
  }

  /** `v[key]` with a str key. */
  function At(v: Value, key: string): Result<Value> {
    match v
    case Dict(entries) =>
      (match Find(entries, key)
       case Some(x) => Ok(x)
       case None => Raised)
    case _ => Raised
  }

  /** `v.items()` (and `v.keys()`, which raises in the same cases). */
  function Items(v: Value): Result<seq<(string, Value)>> {
    match v
    case Dict(entries) => Ok(entries)
    case _ => Raised
  }

  /** `v.lower()` */
  function LowerOf(v: Value): Result<string> {
    match v
    case Str(s) => Ok(Lower(s))
    case _ => Raised
  }

  /** `v.upper()` */
  function UpperOf(v: Value): Result<string> {
    match v
    case Str(s) => Ok(Upper(s))
    case _ => Raised
  }

  /** `len(v)` */
  function Len(v: Value): Result<nat> {
    match v
    case Str(s) => Ok(|s|)
    case List(items) => Ok(|items|)
    case Dict(entries) => Ok(|entries|)
    case _ => Raised
  }

  /** The elements `for x in v` visits. */
  function Iter(v: Value): Result<seq<Value>> {
    match v
    case List(items) => Ok(items)
    case Dict(entries) => Ok(seq(|entries|, i requires 0 <= i < |entries| => Str(entries[i].0)))
    case Str(s) => Ok(seq(|s|, i requires 0 <= i < |s| => Str([s[i]])))
    case _ => Raised
  }

  predicate Hashable(v: Value) {
    !v.List? && !v.Dict?
  }

  /** `set(v)` */
  function SetOf(v: Value): (r: Result<set<Value>>)
    ensures r.Ok? ==> Iter(v).Ok? && r.value == set x | x in Iter(v).value
  {
    match Iter(v)
    case Raised => Raised
    case Ok(xs) =>
      if forall x | x in xs :: Hashable(x) then Ok(set x | x in xs) else Raised
  }

  /** A number in hundredths (a bool is 0 or 1); `None` for anything else. */
  function Centi(v: Value): Option<int> {
    match v
    case Bool(b) => Some(if b then 100 else 0)
    case Int(i) => Some(i * 100)
    case Real(c) => Some(c)
    case _ => None
  }

  /** `a == b` on values: numbers compare by value across bool, int and
      float, as in Python; everything else structurally. */
  predicate Equal(a: Value, b: Value) {
    if Centi(a).Some? && Centi(b).Some? then Centi(a) == Centi(b) else a == b
  }

  /** `x in xs` for a list. */
  predicate Member(x: Value, xs: seq<Value>) {
    exists i | 0 <= i < |xs| :: Equal(x, xs[i])
  }

  /** `v > n` for an int `n`, which raises unless `v` is a number. */
  function Greater(v: Value, n: int): Result<bool> {
    match Centi(v)
    case Some(x) => Ok(x > n * 100)
    case None => Raised
  }

  /** `v < n` for an int `n`, which raises unless `v` is a number. */
  function Less(v: Value, n: int): Result<bool> {
    match Centi(v)
    case Some(x) => Ok(x < n * 100)
    case None => Raised
  }

  /** `float(v)` in hundredths. A str is not parsed: it counts as raising. */
  function Float(v: Value): Result<int> {
    match Centi(v)
    case Some(x) => Ok(x)
    case None => Raised
  }

  /** `str(v)`; a list or dict is rendered as a fixed placeholder. */
  function StrOf(v: Value): string {
    match v
    case Null => "None"
    case Bool(b) => if b then "True" else "False"
    case Int(i) => Decimal(i)
    case Real(c) => RealDecimal(c)
    case Str(s) => s
    case List(_) => "[...]"
    case Dict(_) => "{...}"
  }

  /** `str(x)` of a float holding `c` hundredths: "2.5", "-0.05", "3.0". */
  function RealDecimal(c: int): string {
    var m: nat := if c < 0 then -c else c;
    var sign := if c < 0 then "-" else "";
    var frac := m % 100;
    sign + NatDecimal(m / 100) + "." +
      (if frac % 10 == 0 then [DigitChar(frac / 10)] else [DigitChar(frac / 10), DigitChar(frac % 10)])
  }

  /** Strings wrapped as values. */
  function Strs(names: seq<string>): (r: seq<Value>)
    ensures |r| == |names| && forall i :: 0 <= i < |names| ==> r[i] == Str(names[i])
  {
    seq(|names|, i requires 0 <= i < |names| => Str(names[i]))
  }

  /** A string and the value that wraps it are Python-equal exactly when they are the same string. */
  lemma MemberStrs(x: Value, names: seq<string>)
    ensures Member(x, Strs(names)) <==> x.Str? && x.s in names
  {
    if x.Str? && x.s in names {
      var i :| 0 <= i < |names| && names[i] == x.s;
      assert Equal(x, Strs(names)[i]);
    }
  }

  /** `set(v) - set(names)` */
  function SetMinus(v: Value, names: seq<string>): (r: Result<set<Value>>)
    ensures r.Ok? ==> Iter(v).Ok?
    ensures r.Ok? ==> forall x :: x in r.value <==> x in Iter(v).value && !(x.Str? && x.s in names)
  {
    var expected :- SetOf(v);
    Ok(expected - set n | n in names :: Str(n))
  }

  /** `set(expected) - set(names)` for a list of strs: exactly the expected
      strings that are not among `names`. */
  lemma SetMinusStrs(expected: seq<string>, names: seq<string>)
    ensures SetMinus(List(Strs(expected)), names) == Ok(set n | n in expected && n !in names :: Str(n))
  {
    var values := Strs(expected);
    assert forall x :: x in values ==> Hashable(x);
    var r := SetMinus(List(values), names);
    assert SetOf(List(values)) == Ok(set x | x in values);
    assert r.Ok?;
    var want := set n | n in expected && n !in names :: Str(n);
    forall x
      ensures x in r.value <==> x in want
    {
      if x in values {
        var i :| 0 <= i < |values| && values[i] == x;
        assert x == Str(expected[i]);
      }
      if x in want {
        var n :| n in expected && n !in names && x == Str(n);
        var i :| 0 <= i < |expected| && expected[i] == n;
        assert values[i] == x;
      }
    }
    assert r.value == want;
  }

  /** `d[key] = v` on a dict's entries: the entry under `key` takes the new
      value in place, or a new entry is added at the end. */
  function Assign(entries: seq<(string, Value)>, key: string, v: Value): (r: seq<(string, Value)>)
    ensures Find(r, key) == Some(v)
    ensures forall k :: k != key ==> Find(r, k) == Find(entries, k)
    ensures forall k :: k in Keys(r) <==> k in Keys(entries) || k == key
    ensures forall e :: e in r ==> e in entries || e == (key, v)
  {
    if entries == [] then [(key, v)]
    else
      var rest := Assign(entries[1..], key, v);
      var head := if entries[0].0 == key then (key, v) else entries[0];
      assert Keys([head] + rest) == [head.0] + Keys(rest);
      assert Keys(entries) == [entries[0].0] + Keys(entries[1..]);
      [head] + rest
  }
}

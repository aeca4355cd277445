/** Walks through the nested dictionaries a structured parser returns, written
    in the checkers as towers of `if key in node: for k, v in node[key].items():`.
    A walk yields the `(key, value)` pairs it reaches at its innermost level, in
    order, and stops where Python would raise: what was reached before the
    exception is kept, and `complete` says whether the walk got to the end. */
module Shapes {
  import opened Text
  import opened PyValue

  /** One level of a walk. */
  datatype Step =
      /** `if key in node: for k, v in node[key].items()` */
    | Each(key: string)
      /** `if key in node: node[key]`, reached under the name `key` */
    | One(key: string)
      /** `for k, v in node.get(key, {}).items()` */
    | Within(key: string)
      /** `for k, v in node.items()` */
    | All

  /** Items gathered up to the first exception, and whether none occurred. */
  datatype Partial<+X> = Partial(items: seq<X>, complete: bool)

  /** The entries one step leads to from `node`. */
  function Level(node: Value, step: Step): Result<seq<(string, Value)>> {
    match step
    case Each(k) =>
      var present :- In(k, node);
      if !present then Ok([])
      else
        var child :- At(node, k);
        Items(child)
    case One(k) =>
      var present :- In(k, node);
      if !present then Ok([])
      else
        var child :- At(node, k);
        Ok([(k, child)])
    case Within(k) =>
      var child :- Get(node, k, Dict([]));
      Items(child)
    case All =>
      Items(node)
  }

  /** The leaves reached from `node` (itself reached under `name`) along `path`. */
  function Descend(name: string, node: Value, path: seq<Step>): Partial<(string, Value)>
    decreases |path|, 0, 0
  {
    if path == [] then Partial([(name, node)], true)
    else
      match Level(node, path[0])
      case Raised => Partial([], false)
      case Ok(entries) => DescendAll(entries, path[1..])
  }

  /** The leaves reached from each of `entries` in turn, up to the first exception. */
  function DescendAll(entries: seq<(string, Value)>, path: seq<Step>): Partial<(string, Value)>
    decreases |path|, 1, |entries|
  {
    if entries == [] then Partial([], true)
    else
      var front := DescendAll(entries[..|entries| - 1], path);
      if !front.complete then front
      else
        var last := Descend(entries[|entries| - 1].0, entries[|entries| - 1].1, path);
        Partial(front.items + last.items, last.complete)
  }

  /** The walk from the top of a payload. */
  function Walk(root: Value, path: seq<Step>): Partial<(string, Value)> {
    Descend("", root, path)
  }

  /** Once a prefix of the entries has raised, the rest is never visited. */
  lemma {:induction false} DescendAllStops(entries: seq<(string, Value)>, path: seq<Step>, k: nat)
    requires k <= |entries| && !DescendAll(entries[..k], path).complete
    ensures DescendAll(entries, path) == DescendAll(entries[..k], path)
    decreases |entries| - k
  {
    if k < |entries| {
      assert entries[..k + 1][..k] == entries[..k];
      DescendAllStops(entries, path, k + 1);
    } else {
      assert entries[..k] == entries;
    }
  }

  /** Either kind of step through a dictionary holding only `key` leads to the entries under it. */
  lemma SingleKey(key: string, v: Value)
    ensures Level(Dict([(key, v)]), Each(key)) == Items(v)
    ensures Level(Dict([(key, v)]), Within(key)) == Items(v)
  {
    assert Keys([(key, v)])[0] == key;
  }

  /** A walk over several entries that runs to the end ran to the end on the first. */
  lemma {:induction false} FirstComplete(entries: seq<(string, Value)>, path: seq<Step>)
    requires entries != [] && DescendAll(entries, path).complete
    ensures Descend(entries[0].0, entries[0].1, path).complete
  {
    var front := entries[..|entries| - 1];
    if front != [] {
      FirstComplete(front, path);
      assert front[0] == entries[0];
    }
  }

  /** A walk with no steps left yields every entry it is given, in order. */
  lemma DescendAllLeaves(entries: seq<(string, Value)>)
    ensures DescendAll(entries, []) == Partial(entries, true)
  {
    LeavesUpTo(entries, |entries|);
    assert entries[..|entries|] == entries;
  }

  lemma {:induction false} LeavesUpTo(entries: seq<(string, Value)>, k: nat)
    requires k <= |entries|
    ensures DescendAll(entries[..k], []) == Partial(entries[..k], true)
  {
    if k > 0 {
      LeavesUpTo(entries, k - 1);
      assert entries[..k][..k - 1] == entries[..k - 1];
      assert entries[..k - 1] + [entries[k - 1]] == entries[..k];
    }
  }

  /** A one-level walk over a dictionary held under `key` yields its entries;
      a payload without `key` yields nothing and raises nothing. */
  lemma OneLevel(entries: seq<(string, Value)>, key: string, inner: seq<(string, Value)>)
    ensures Find(entries, key) == None ==> Walk(Dict(entries), [Each(key)]) == Partial([], true)
    ensures Find(entries, key) == Some(Dict(inner)) ==> Walk(Dict(entries), [Each(key)]) == Partial(inner, true)
  {
    var path := [Each(key)];
    assert path[1..] == [];
    DescendAllLeaves(inner);
    if Find(entries, key) == Some(Dict(inner)) {
      assert Level(Dict(entries), path[0]) == Ok(inner);
    } else if Find(entries, key) == None {
      assert Level(Dict(entries), path[0]) == Ok([]);
      assert Descend("", Dict(entries), path) == DescendAll([], []);
    }
  }

  /** The nested loops themselves: one loop per level, each leaving at the
      first exception. */
  method Descending(name: string, node: Value, path: seq<Step>) returns (w: Partial<(string, Value)>)
    ensures w == Descend(name, node, path)
    decreases |path|
  {
    if path == [] {
      return Partial([(name, node)], true);
    }
    var level := Level(node, path[0]);
    if level.Raised? {
      return Partial([], false);
    }
    var entries := level.value;
    w := Partial([], true);
    var i := 0;
    while i < |entries| && w.complete
      invariant 0 <= i <= |entries|
      invariant w == DescendAll(entries[..i], path[1..])
    {
      assert entries[..i + 1][..i] == entries[..i];
      var sub := Descending(entries[i].0, entries[i].1, path[1..]);
      w := Partial(w.items + sub.items, sub.complete);
      i := i + 1;
    }
    if i < |entries| {
      DescendAllStops(entries, path[1..], i);
    } else {
      assert entries[..i] == entries;
    }
  }

  /** Per-leaf work applied to the leaves in order, up to the first leaf
      whose work raises; what that leaf added before raising is kept. */
  function Scan<X>(leaves: seq<(string, Value)>, f: ((string, Value)) -> Partial<X>): Partial<X> {
    if leaves == [] then Partial([], true)
    else
      var front := Scan(leaves[..|leaves| - 1], f);
      if !front.complete then front
      else
        var last := f(leaves[|leaves| - 1]);
        Partial(front.items + last.items, last.complete)
  }

  /** The per-leaf work done as the walk reaches each leaf: complete only if
      neither the walk nor any leaf's work raised. */
  function Visit<X>(w: Partial<(string, Value)>, f: ((string, Value)) -> Partial<X>): Partial<X> {
    var s := Scan(w.items, f);
    Partial(s.items, s.complete && w.complete)
  }

  lemma {:induction false} ScanStops<X>(leaves: seq<(string, Value)>, f: ((string, Value)) -> Partial<X>, k: nat)
    requires k <= |leaves| && !Scan(leaves[..k], f).complete
    ensures Scan(leaves, f) == Scan(leaves[..k], f)
    decreases |leaves| - k
  {
    if k < |leaves| {
      assert leaves[..k + 1][..k] == leaves[..k];
      ScanStops(leaves, f, k + 1);
    } else {
      assert leaves[..k] == leaves;
    }
  }

  /** The innermost loop body run over the leaves. */
  method Scanning<X>(leaves: seq<(string, Value)>, f: ((string, Value)) -> Partial<X>) returns (s: Partial<X>)
    ensures s == Scan(leaves, f)
  {
    s := Partial([], true);
    var i := 0;
    while i < |leaves| && s.complete
      invariant 0 <= i <= |leaves|
      invariant s == Scan(leaves[..i], f)
    {
      assert leaves[..i + 1][..i] == leaves[..i];
      var step := f(leaves[i]);
      s := Partial(s.items + step.items, step.complete);
      i := i + 1;
    }
    if i < |leaves| {
      ScanStops(leaves, f, i);
    } else {
      assert leaves[..i] == leaves;
    }
  }

  /** A complete scan holds exactly the items of every leaf, each leaf's in turn. */
  lemma {:induction false} ScanComplete<X>(leaves: seq<(string, Value)>, f: ((string, Value)) -> Partial<X>, x: X)
    requires Scan(leaves, f).complete
    ensures x in Scan(leaves, f).items <==> exists i :: 0 <= i < |leaves| && x in f(leaves[i]).items
    ensures forall i :: 0 <= i < |leaves| ==> f(leaves[i]).complete
  {
    if leaves != [] {
      var front := leaves[..|leaves| - 1];
      ScanComplete(front, f, x);
      assert forall i :: 0 <= i < |front| ==> front[i] == leaves[i];
    }
  }

  /** A scan none of whose leaves raises is complete. */
  lemma {:induction false} ScanAllComplete<X>(leaves: seq<(string, Value)>, f: ((string, Value)) -> Partial<X>)
    requires forall i :: 0 <= i < |leaves| ==> f(leaves[i]).complete
    ensures Scan(leaves, f).complete
  {
    if leaves != [] {
      var front := leaves[..|leaves| - 1];
      assert forall i :: 0 <= i < |front| ==> front[i] == leaves[i];
      ScanAllComplete(front, f);
    }
  }

  /** When every leaf yields exactly one item and none raises, the scan
      yields one item per leaf, in leaf order. */
  lemma {:induction false} ScanEach<X>(leaves: seq<(string, Value)>, f: ((string, Value)) -> Partial<X>)
    requires forall i :: 0 <= i < |leaves| ==> f(leaves[i]).complete && |f(leaves[i]).items| == 1
    ensures Scan(leaves, f).complete && |Scan(leaves, f).items| == |leaves|
    ensures forall i :: 0 <= i < |leaves| ==> Scan(leaves, f).items[i] == f(leaves[i]).items[0]
  {
    if leaves != [] {
      var front := leaves[..|leaves| - 1];
      assert forall i :: 0 <= i < |front| ==> front[i] == leaves[i];
      ScanEach(front, f);
    }
  }

  /** Items of a leaf are never lost: whatever a scan of a prefix of the
      leaves gathered is a prefix of what the full scan gathers. */
  lemma {:induction false} ScanKeepsPrefix<X>(leaves: seq<(string, Value)>, f: ((string, Value)) -> Partial<X>, k: nat)
    requires k <= |leaves|
    ensures Scan(leaves[..k], f).items <= Scan(leaves, f).items
    decreases |leaves| - k
  {
    if k < |leaves| {
      assert leaves[..k + 1][..k] == leaves[..k];
      ScanKeepsPrefix(leaves, f, k + 1);
    } else {
      assert leaves[..k] == leaves;
    }
  }
}

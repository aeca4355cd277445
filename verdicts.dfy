/** How a test turns the findings it collects over its devices into a
    verdict: it fails exactly when its failure list is non-empty, warnings
    never decide it, a testcase whose setup found nothing to test is skipped,
    and an exception nothing catches makes the test errored. */
module Verdicts {
  import opened PyValue

  datatype Verdict = Passed | Failed | Skipped | Errored

  /** A finding about one device, link or interface (`scope`). */
  datatype Finding<+I> = Finding(scope: string, issue: I)

  /** Issues found on one device, each recorded under the device's name. */
  function Scoped<I>(name: string, issues: seq<I>): (r: seq<Finding<I>>)
    ensures |r| == |issues| && forall i :: 0 <= i < |r| ==> r[i] == Finding(name, issues[i])
  {
    seq(|issues|, i requires 0 <= i < |issues| => Finding(name, issues[i]))
  }

  datatype Outcome<+I> = Outcome(verdict: Verdict, failures: seq<I>, warnings: seq<I>)

  /** `if failures: self.failed(...)` at the end of a test. */
  function Conclude<I>(failures: seq<I>, warnings: seq<I>): (o: Outcome<I>)
    ensures o.verdict == Failed <==> failures != []
    ensures o.verdict != Failed ==> o.verdict == Passed
    ensures o.failures == failures && o.warnings == warnings
  {
    Outcome(if failures == [] then Passed else Failed, failures, warnings)
  }

  /** The findings of every element of `ds`, in order. */
  function Gather<T, I>(ds: seq<T>, f: T -> seq<I>): seq<I>
  {
    if ds == [] then [] else Gather(ds[..|ds| - 1], f) + f(ds[|ds| - 1])
  }

  /** Like `Gather`, for per-element work that may raise: the first
      exception ends the whole loop. */
  function GatherAll<T, I>(ds: seq<T>, f: T -> Result<seq<I>>): Result<seq<I>>
  {
    if ds == [] then Ok([])
    else
      var front :- GatherAll(ds[..|ds| - 1], f);
      var last :- f(ds[|ds| - 1]);
      Ok(front + last)
  }

  /** A test that fails when some device in scope has a finding; with no
      device in scope its testcase's setup has skipped it. */
  function FailTest<T, I>(scope: seq<T>, check: T -> seq<I>): Outcome<I> {
    if scope == [] then Outcome(Skipped, [], []) else Conclude(Gather(scope, check), [])
  }

  /** A test that only collects warnings. */
  function WarnTest<T, I>(scope: seq<T>, check: T -> seq<I>): Outcome<I> {
    if scope == [] then Outcome(Skipped, [], []) else Conclude([], Gather(scope, check))
  }

  /** A failing test whose device loop is not protected by a `try`. */
  function FailTestOr<T, I>(scope: seq<T>, check: T -> Result<seq<I>>): Outcome<I> {
    if scope == [] then Outcome(Skipped, [], [])
    else
      match GatherAll(scope, check)
      case Raised => Outcome(Errored, [], [])
      case Ok(failures) => Conclude(failures, [])
  }

  /** A warning-only test whose device loop is not protected by a `try`. */
  function WarnTestOr<T, I>(scope: seq<T>, check: T -> Result<seq<I>>): Outcome<I> {
    if scope == [] then Outcome(Skipped, [], [])
    else
      match GatherAll(scope, check)
      case Raised => Outcome(Errored, [], [])
      case Ok(warnings) => Conclude([], warnings)
  }

  /** The device loop of a test: every device's findings appended in turn. */
  method CollectFindings<T, I>(ds: seq<T>, f: T -> seq<I>) returns (found: seq<I>)
    ensures found == Gather(ds, f)
  {
    found := [];
    for i := 0 to |ds|
      invariant found == Gather(ds[..i], f)
    {
      assert ds[..i + 1][..i] == ds[..i];
      found := found + f(ds[i]);
    }
    assert ds[..|ds|] == ds;
  }

  /** The device loop of a test whose per-device work may raise uncaught. */
  method CollectFindingsOr<T, I>(ds: seq<T>, f: T -> Result<seq<I>>) returns (r: Result<seq<I>>)
    ensures r == GatherAll(ds, f)
  {
    var found := [];
    for i := 0 to |ds|
      invariant GatherAll(ds[..i], f) == Ok(found)
    {
      assert ds[..i + 1][..i] == ds[..i];
      var step := f(ds[i]);
      if step.Raised? {
        LaterRaised(ds, f, i + 1);
        return Raised;
      }
      found := found + step.value;
    }
    assert ds[..|ds|] == ds;
    r := Ok(found);
  }

  /** Once the loop has raised on a prefix it has raised on the whole. */
  lemma {:induction false} LaterRaised<T, I>(ds: seq<T>, f: T -> Result<seq<I>>, k: nat)
    requires k <= |ds| && GatherAll(ds[..k], f).Raised?
    ensures GatherAll(ds, f).Raised?
    decreases |ds| - k
  {
    if k < |ds| {
      assert ds[..k + 1][..k] == ds[..k];
      LaterRaised(ds, f, k + 1);
    } else {
      assert ds[..k] == ds;
    }
  }

  /** A failing test as its testcase runs it: skipped when setup found no
      device, else the device loop and the verdict. */
  method RunFailTest<T, I>(scope: seq<T>, check: T -> seq<I>) returns (o: Outcome<I>)
    ensures o == FailTest(scope, check)
  {
    if scope == [] {
      return Outcome(Skipped, [], []);
    }
    var failed := CollectFindings(scope, check);
    o := Conclude(failed, []);
  }

  method RunWarnTest<T, I>(scope: seq<T>, check: T -> seq<I>) returns (o: Outcome<I>)
    ensures o == WarnTest(scope, check)
    ensures o.verdict != Failed && o.failures == []
  {
    if scope == [] {
      return Outcome(Skipped, [], []);
    }
    var warnings := CollectFindings(scope, check);
    o := Conclude([], warnings);
  }

  method RunFailTestOr<T, I>(scope: seq<T>, check: T -> Result<seq<I>>) returns (o: Outcome<I>)
    ensures o == FailTestOr(scope, check)
  {
    if scope == [] {
      return Outcome(Skipped, [], []);
    }
    var r := CollectFindingsOr(scope, check);
    if r.Raised? {
      return Outcome(Errored, [], []);
    }
    o := Conclude(r.value, []);
  }

  method RunWarnTestOr<T, I>(scope: seq<T>, check: T -> Result<seq<I>>) returns (o: Outcome<I>)
    ensures o == WarnTestOr(scope, check)
    ensures o.verdict != Failed && o.failures == []
  {
    if scope == [] {
      return Outcome(Skipped, [], []);
    }
    var r := CollectFindingsOr(scope, check);
    if r.Raised? {
      return Outcome(Errored, [], []);
    }
    o := Conclude([], r.value);
  }

  /** A finding of the loop is a finding of one of its devices, and back. */
  lemma {:induction false} GatherMember<T, I>(ds: seq<T>, f: T -> seq<I>, x: I)
    ensures x in Gather(ds, f) <==> exists i :: 0 <= i < |ds| && x in f(ds[i])
  {
    if ds != [] {
      var front := ds[..|ds| - 1];
      GatherMember(front, f, x);
      assert forall i :: 0 <= i < |front| ==> front[i] == ds[i];
    }
  }

  /** The loop collects nothing exactly when no device has a finding. */
  lemma {:induction false} GatherEmpty<T, I>(ds: seq<T>, f: T -> seq<I>)
    ensures Gather(ds, f) == [] <==> forall i :: 0 <= i < |ds| ==> f(ds[i]) == []
  {
    if ds != [] {
      var front := ds[..|ds| - 1];
      GatherEmpty(front, f);
      assert forall i :: 0 <= i < |front| ==> front[i] == ds[i];
    }
  }

  /** A failing test with devices in scope fails exactly when one of them
      has a finding, and passes otherwise. */
  lemma FailTestVerdict<T, I>(scope: seq<T>, check: T -> seq<I>)
    ensures scope == [] <==> FailTest(scope, check).verdict == Skipped
    ensures FailTest(scope, check).verdict == Failed <==> exists i :: 0 <= i < |scope| && check(scope[i]) != []
  {
    GatherEmpty(scope, check);
  }

  /** A warning-only test never fails, whatever its devices answer. */
  lemma WarnTestNeverFails<T, I>(scope: seq<T>, check: T -> seq<I>)
    ensures WarnTest(scope, check).verdict != Failed
    ensures scope != [] ==> WarnTest(scope, check).verdict == Passed
    ensures WarnTest(scope, check).failures == []
  {
  }

  /** Likewise when the warning loop may raise: errored perhaps, failed never. */
  lemma WarnTestOrNeverFails<T, I>(scope: seq<T>, check: T -> Result<seq<I>>)
    ensures WarnTestOr(scope, check).verdict != Failed
    ensures WarnTestOr(scope, check).failures == []
  {
  }

  /** A finding of a loop that did not raise is a finding of one of its
      elements, and back. */
  lemma {:induction false} GatherAllMember<T, I>(ds: seq<T>, f: T -> Result<seq<I>>, x: I)
    requires GatherAll(ds, f).Ok?
    ensures forall i :: 0 <= i < |ds| ==> f(ds[i]).Ok?
    ensures x in GatherAll(ds, f).value <==> exists i :: 0 <= i < |ds| && x in f(ds[i]).value
  {
    if ds != [] {
      var front := ds[..|ds| - 1];
      GatherAllMember(front, f, x);
      assert forall i :: 0 <= i < |front| ==> front[i] == ds[i];
    }
  }
}

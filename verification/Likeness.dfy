/** Runs that differ in the data of some observations write records that differ in them. */
module Likeness {
  import opened Json
  import opened Records
  import opened Emitter

  /** The same stop, or a good observation with the same length and flags, which is the same one if that was good. */
  predicate SameResult(good: Obs -> bool, r: CallResult, s: CallResult) {
    match r
    case Broke(_) => s == r
    case Observed(o) =>
      && s.Observed? && s.obs.length == o.length && s.obs.panicked == o.panicked
      && s.obs.unstable == o.unstable && s.obs.truncated == o.truncated
      && good(s.obs) && (good(o) ==> s.obs == o)
  }

  // ----- the lines of results that agree -----

  predicate SameResults(good: Obs -> bool, rs: seq<CallResult>, ss: seq<CallResult>) {
    |rs| == |ss| && forall k :: 0 <= k < |rs| ==> SameResult(good, rs[k], ss[k])
  }

  /** Equal, but for the hash and the display of an observation that is not good. */
  predicate SameLine(good: Obs -> bool, a: Line, b: Line) {
    if a.Seen? then b.Seen? && a.f == b.f && a.i == b.i && SameResult(good, Observed(a.obs), Observed(b.obs)) else b == a
  }

  predicate SameLines(good: Obs -> bool, a: seq<Line>, b: seq<Line>) {
    |a| == |b| && forall k :: 0 <= k < |a| ==> SameLine(good, a[k], b[k])
  }

  lemma SameJoin(good: Obs -> bool, a: seq<Line>, b: seq<Line>, c: seq<Line>, d: seq<Line>)
    requires SameLines(good, a, b) && SameLines(good, c, d)
    ensures SameLines(good, a + c, b + d)
  {
    hide SameLine;
  }

  lemma SameSelf(good: Obs -> bool, a: seq<Line>)
    requires forall k :: 0 <= k < |a| ==> !a[k].Seen?
    ensures SameLines(good, a, a)
  {}

  lemma SameOne(good: Obs -> bool, f: int, k: nat, r: CallResult, s: CallResult)
    requires SameResult(good, r, s)
    ensures SameLines(good, [ResultLine(f, k, r)], [ResultLine(f, k, s)]) && (r.Broke? <==> s.Broke?)
  {}

  lemma {:induction false} SameInputs(good: Obs -> bool, f: int, k: nat, rs: seq<CallResult>, ss: seq<CallResult>)
    requires SameResults(good, rs, ss)
    ensures SameLines(good, InputLines(f, k, rs), InputLines(f, k, ss))
    ensures Poisons(false, rs) == Poisons(false, ss) && Observations(false, rs) == Observations(false, ss)
    decreases |rs|
  {
    hide SameResult, SameLines, ResultLine;
    if rs == [] {
      SameSelf(good, [End(f, k)]);
    } else {
      SameOne(good, f, k, rs[0], ss[0]);
      assert SameResult(good, rs[0], ss[0]) && (rs[0].Broke? ==> ss[0] == rs[0]) by {
        BrokeSame(good, rs[0], ss[0]);
      }
      if !rs[0].Broke? {
        SameInputs(good, f, k + 1, rs[1..], ss[1..]);
        SameJoin(good, [ResultLine(f, k, rs[0])], [ResultLine(f, k, ss[0])], InputLines(f, k + 1, rs[1..]), InputLines(f, k + 1, ss[1..]));
      } else {
        assert [ResultLine(f, k, rs[0])] + [] == [ResultLine(f, k, rs[0])];
      }
    }
  }

  lemma BrokeSame(good: Obs -> bool, r: CallResult, s: CallResult)
    requires SameResult(good, r, s)
    ensures r.Broke? ==> s == r
  {}

  lemma SameTests(h: Harness, good: Obs -> bool, f: int, poisoned: bool, rs: seq<CallResult>, ss: seq<CallResult>)
    requires h.Has(f) && SameResults(good, rs, ss)
    ensures SameLines(good, TestLines(h, f, poisoned, rs), TestLines(h, f, poisoned, ss))
    ensures Poisons(poisoned, rs) == Poisons(poisoned, ss)
  {
    hide SameResults, SameLines, InputLines;
    SameInputs(good, f, 0, rs, ss);
    var opening := OpenLines(h, f);
    SameSelf(good, opening);
    SameSelf(good, [Stop(f, 0, POISONED)]);
    assert Observations(poisoned, rs) == Observations(poisoned, ss) && Poisons(poisoned, rs) == Poisons(poisoned, ss);
    SameSelf(good, DoneLines(h, f, Observations(poisoned, rs)));
    SameJoin(good, opening, opening, BodyLines(f, 0, poisoned, rs), BodyLines(f, 0, poisoned, ss));
    SameJoin(good, opening + BodyLines(f, 0, poisoned, rs), opening + BodyLines(f, 0, poisoned, ss),
             DoneLines(h, f, Observations(poisoned, rs)), DoneLines(h, f, Observations(poisoned, ss)));
  }

  predicate SameRuns(good: Obs -> bool, runs: seq<seq<CallResult>>, made: seq<seq<CallResult>>) {
    |runs| == |made| && forall k :: 0 <= k < |runs| ==> SameResults(good, runs[k], made[k])
  }

  lemma {:induction false} SameRun(h: Harness, good: Obs -> bool, f: int, poisoned: bool, runs: seq<seq<CallResult>>, made: seq<seq<CallResult>>)
    requires f >= 1 && f + |runs| == |h.tests| + 1 && SameRuns(good, runs, made)
    ensures SameLines(good, RunLines(h, f, poisoned, runs), RunLines(h, f, poisoned, made))
    decreases |runs|
  {
    hide SameResults, SameLines, TestLines, Poisons;
    if runs == [] {
      SameSelf(good, []);
    } else {
      SameTests(h, good, f, poisoned, runs[0], made[0]);
      var next := Poisons(poisoned, runs[0]);
      SameRun(h, good, f + 1, next, runs[1..], made[1..]);
      SameJoin(good, TestLines(h, f, poisoned, runs[0]), TestLines(h, f, poisoned, made[0]),
               RunLines(h, f + 1, next, runs[1..]), RunLines(h, f + 1, next, made[1..]));
    }
  }

  lemma SamePrefix(good: Obs -> bool, a: seq<Line>, b: seq<Line>, p: seq<Line>)
    requires SameLines(good, a, b) && p <= a
    ensures SameLines(good, p, b[..|p|])
  {
    hide SameLine;
  }

  predicate AllGood(good: Obs -> bool, ls: seq<Line>) {
    forall k :: 0 <= k < |ls| && ls[k].Seen? ==> good(ls[k].obs)
  }

  /** The second records are good, and are the first ones when those are good. */
  lemma GoodIsSame(good: Obs -> bool, a: seq<Line>, b: seq<Line>)
    requires SameLines(good, a, b)
    ensures AllGood(good, b) && (AllGood(good, a) ==> a == b)
  {
    forall k | 0 <= k < |a|
      ensures b[k].Seen? ==> good(b[k].obs)
      ensures AllGood(good, a) ==> a[k] == b[k]
    {
      assert SameLine(good, a[k], b[k]);
    }
  }
}

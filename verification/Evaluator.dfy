/** Evaluate, and what its counts mean. */
module Evaluator {
  import opened Json
  import opened Records
  import opened Validator
  import opened Divergence
  import opened Compare

  // ----- consistent -----

  method SameCommand(checks: seq<Option<Check>>) returns (ok: bool)
    ensures ok == OneCommand(checks)
  {
    var command: Option<seq<string>> := None;
    for k := 0 to |checks|
      invariant forall i :: 0 <= i < k && checks[i].Some? ==>
                  command.Some? && checks[i].value.command == command.value && command.value != []
      invariant command.Some? ==> exists i :: 0 <= i < k && checks[i].Some? && checks[i].value.command == command.value
    {
      if checks[k].Some? {
        var c := checks[k].value.command;
        if c == [] {
          return false;
        }
        if command.None? {
          command := Some(c);
        } else if command.value != c {
          return false;
        }
      }
    }
    return true;
  }

  /** One package for the fuzz test: the first usable side's. */
  method SamePackage(sides: seq<Side>) returns (ok: bool)
    ensures ok == OnePackage(sides)
  {
    var pkg: Option<string> := None;
    for k := 0 to |sides|
      invariant forall i :: 0 <= i < k && sides[i].usable ==> pkg == Some(sides[i].pkg)
      invariant pkg.Some? ==> exists i :: 0 <= i < k && sides[i].usable && sides[i].pkg == pkg.value
    {
      if sides[k].usable {
        if pkg.None? {
          pkg := Some(sides[k].pkg);
        } else if pkg.value != sides[k].pkg {
          return false;
        }
      }
    }
    return true;
  }

  function AllRecords(sides: seq<Side>): seq<Record> {
    if sides == [] then [] else RecordsAt(sides[0]) + AllRecords(sides[1..])
  }

  predicate SameCalls(rs: seq<Record>) {
    forall x, y :: x in rs && y in rs && x.index == y.index ==> x.call == y.call
  }

  lemma {:induction false} SideOfRecord(sides: seq<Side>, r: Record) returns (k: nat)
    requires r in AllRecords(sides)
    ensures k < |sides| && r in RecordsAt(sides[k])
    decreases |sides|
  {
    hide RecordsAt;
    if r in RecordsAt(sides[0]) {
      k := 0;
    } else {
      k := SideOfRecord(sides[1..], r);
      k := k + 1;
    }
  }

  lemma {:induction false} RecordOfSide(sides: seq<Side>, k: nat, r: Record)
    requires k < |sides| && r in RecordsAt(sides[k])
    ensures r in AllRecords(sides)
    decreases |sides|
  {
    hide RecordsAt;
    if k > 0 {
      RecordOfSide(sides[1..], k - 1, r);
    }
  }

  lemma InAllRecords(sides: seq<Side>, r: Record)
    ensures r in AllRecords(sides) <==> exists k :: 0 <= k < |sides| && r in RecordsAt(sides[k])
  {
    hide RecordsAt, AllRecords;
    if r in AllRecords(sides) {
      var k := SideOfRecord(sides, r);
    }
    if k: nat :| k < |sides| && r in RecordsAt(sides[k]) {
      RecordOfSide(sides, k, r);
    }
  }

  lemma OneCorpusIsSameCalls(sides: seq<Side>)
    ensures OneCorpus(sides) <==> SameCalls(AllRecords(sides))
  {
    if OneCorpus(sides) {
      forall x, y | x in AllRecords(sides) && y in AllRecords(sides) && x.index == y.index
        ensures x.call == y.call
      {
        InAllRecords(sides, x);
        InAllRecords(sides, y);
      }
    }
    if SameCalls(AllRecords(sides)) {
      forall j, k, x, y | 0 <= j < |sides| && 0 <= k < |sides| && x in RecordsAt(sides[j]) && y in RecordsAt(sides[k]) && x.index == y.index
        ensures x.call == y.call
      {
        InAllRecords(sides, x);
        InAllRecords(sides, y);
      }
    }
  }

  /** A map of calls by index knows the records: each record's call, and no other. */
  ghost predicate Knows(calls: map<int, string>, rs: seq<Record>) {
    && (forall x :: x in rs ==> x.index in calls && calls[x.index] == x.call)
    && (forall n :: n in calls ==> exists x :: x in rs && x.index == n && x.call == calls[n])
  }

  lemma KnowsNext(calls: map<int, string>, rs: seq<Record>, r: Record)
    requires Knows(calls, rs) && (r.index in calls ==> calls[r.index] == r.call)
    ensures Knows(calls[r.index := r.call], rs + [r])
  {
    var next, all := calls[r.index := r.call], rs + [r];
    assert r in all;
    forall n | n in next
      ensures exists x :: x in all && x.index == n && x.call == next[n]
    {
      if n != r.index {
        var x :| x in rs && x.index == n && x.call == calls[n];
        assert x in all;
      }
    }
  }

  lemma KnowsClash(calls: map<int, string>, seen: seq<Record>, r: Record, rs: seq<Record>)
    requires Knows(calls, seen) && r.index in calls && calls[r.index] != r.call
    requires r in rs && forall x :: x in seen ==> x in rs
    ensures !SameCalls(rs)
  {
    var x :| x in seen && x.index == r.index && x.call == calls[r.index];
    assert x in rs;
  }

  lemma KnowsAll(calls: map<int, string>, rs: seq<Record>)
    requires Knows(calls, rs)
    ensures SameCalls(rs)
  {}

  /** The calls seen so far, by index: one map over the records of all usable sides. */
  method SameInputs(sides: seq<Side>) returns (ok: bool)
    ensures ok == OneCorpus(sides)
  {
    hide OneCorpus, SameCalls, AllRecords, Knows;
    OneCorpusIsSameCalls(sides);
    var rs := AllRecords(sides);
    var calls: map<int, string> := map[];
    KnowsNothing();
    for k := 0 to |rs|
      invariant Knows(calls, rs[..k])
    {
      var r := rs[k];
      if r.index in calls && calls[r.index] != r.call {
        KnowsClash(calls, rs[..k], r, rs);
        return false;
      }
      KnowsNext(calls, rs[..k], r);
      assert rs[..k + 1] == rs[..k] + [r];
      calls := calls[r.index := r.call];
    }
    assert rs[..|rs|] == rs;
    KnowsAll(calls, rs);
    return true;
  }

  lemma KnowsNothing()
    ensures Knows(map[], [])
  {}

  method IsConsistent(c: Checks, s: Sides) returns (ok: bool)
    ensures ok == Consistent(c, s)
  {
    ok := SameCommand([c.base, c.candidate, c.baseConfirm, c.candidateConfirm]);
    if ok {
      ok := SamePackage(s.List());
    }
    if ok {
      ok := SameInputs(s.List());
    }
  }

  // ----- Evaluate -----

  /** The loop over the planned inputs. */
  method CountInputs(s: Sides, planned: nat) returns (t: Tally)
    ensures t == TallyOf(s, planned)
  {
    var compared, diverged, unstable, unconfirmed, notRecorded, separating, differs := 0, 0, 0, 0, 0, 0, false;
    var divergent: seq<Divergent> := [];
    for i := 0 to planned
      invariant Tally(compared, diverged, unstable, unconfirmed, notRecorded, separating, differs, divergent) == TallyOf(s, i)
    {
      var rb, rc := s.b1.Record(i), s.c1.Record(i);
      if rb.None? || rc.None? {
        notRecorded := notRecorded + 1;
      } else if rb.value.unstable || rc.value.unstable {
        unstable := unstable + 1;
        if !rb.value.unstable {
          separating := separating + 1;
        }
      } else if rb.value.hash == rc.value.hash && rb.value.length == rc.value.length {
        compared := compared + 1;
      } else {
        differs := true;
        var rb2, rc2 := s.b2.Record(i), s.c2.Record(i);
        if rb2.None? || rc2.None? {
          unconfirmed := unconfirmed + 1;
        } else if rb2.value.unstable || rc2.value.unstable || rb2.value.hash != rb.value.hash || rb2.value.length != rb.value.length
                  || rc2.value.hash != rc.value.hash || rc2.value.length != rc.value.length
        {
          unstable, separating := unstable + 1, separating + 1;
        } else {
          compared, diverged := compared + 1, diverged + 1;
          divergent := divergent + [Divergent(i, rb.value, rc.value)];
        }
      }
    }
    t := Tally(compared, diverged, unstable, unconfirmed, notRecorded, separating, differs, divergent);
  }

  method Evaluate(passed: PassedIn, c: Checks, test: string, planned: int) returns (ev: Evaluation)
    ensures ev == Evaluated(passed, c, test, planned)
  {
    if planned < 1 {
      return Refused(0, NothingPlanned);
    }
    if c.runner.UnknownRunner? {
      return Refused(planned, UnknownRunnerNamed);
    }
    var s := SidesOf(passed, c, test, planned);
    var ok := IsConsistent(c, s);
    if !ok {
      return Refused(planned, NotOneExperiment);
    }
    var t := CountInputs(s, planned);
    var list := new Divergent[|t.divergent|](i requires 0 <= i < |t.divergent| => t.divergent[i]);
    assert list[..] == t.divergent;
    Sort(list);
    Promote(list);
    TallyBalances(s, planned);
    var outcome, reason, counterexample, cut := Diverged, NoReason, None, false;
    if t.diverged > 0 {
      var d := list[0];
      counterexample := Some(Counterexample(d.index, d.base.call, d.base.display, d.candidate.display));
      cut := !Whole(d.base) || !Whole(d.candidate);
    } else {
      reason := Why(s, Confirms(c), planned, t);
      outcome := if reason.NoReason? then NotDiverged else Inconclusive;
    }
    ev := Evaluation(outcome, reason, planned, t.compared, t.diverged, t.unstable, t.unconfirmed, t.notRecorded, t.differs, list[..],
                     counterexample, cut);
  }

  // ----- accounting -----

  predicate Balanced(t: Tally, n: nat) {
    && n == t.compared + t.unstable + t.unconfirmed + t.notRecorded
    && t.diverged <= t.compared && t.diverged == |t.divergent|
    && t.separating <= t.unstable
  }

  lemma {:induction false} TallyBalances(s: Sides, n: nat)
    ensures Balanced(TallyOf(s, n), n)
  {
    if n > 0 {
      TallyBalances(s, n - 1);
    }
  }

  /** Every input is counted once, on every path; a divergence is a comparison. */
  lemma Accounting(passed: PassedIn, c: Checks, test: string, planned: int)
    ensures var ev := Evaluated(passed, c, test, planned);
            && ev.inputs == ev.compared + ev.unstable + ev.unconfirmed + ev.notRecorded
            && ev.diverged <= ev.compared
            && |ev.divergent| == ev.diverged
            && (planned >= 1 ==> ev.inputs == planned)
  {
    if planned >= 1 {
      TallyBalances(SidesOf(passed, c, test, planned), planned);
    }
  }

  // ----- what the counts say about the inputs -----

  /** The inputs below n whose finding is f. */
  function Having(s: Sides, n: nat, f: Finding): set<nat> {
    set i: nat | i < n && Find(s, i) == f
  }

  lemma HavingNext(s: Sides, n: nat, f: Finding)
    ensures |Having(s, n + 1, f)| == |Having(s, n, f)| + if Find(s, n) == f then 1 else 0
  {
    if Find(s, n) == f {
      assert Having(s, n + 1, f) == Having(s, n, f) + {n};
    } else {
      assert Having(s, n + 1, f) == Having(s, n, f);
    }
  }

  lemma NothingHas(s: Sides)
    ensures forall f :: Having(s, 0, f) == {}
  {}

  /** Each count is the number of inputs with that finding. */
  lemma {:induction false} TallyCounts(s: Sides, n: nat)
    ensures var t := TallyOf(s, n);
            && t.diverged == |Having(s, n, Split)|
            && t.compared == |Having(s, n, Split)| + |Having(s, n, Same)|
            && t.unconfirmed == |Having(s, n, Unconfirmed)|
            && t.notRecorded == |Having(s, n, Absent)|
            && t.separating == |Having(s, n, Unrepeated)| + |Having(s, n, Shaky(true))|
            && t.unstable == t.separating + |Having(s, n, Shaky(false))|
            && (t.differs <==> exists i: nat :: i < n && (Find(s, i).Split? || Find(s, i).Unconfirmed? || Find(s, i).Unrepeated?))
  {
    hide Find, Having;
    if n == 0 {
      NothingHas(s);
    } else {
      TallyCounts(s, n - 1);
      HavingNext(s, n - 1, Split);
      HavingNext(s, n - 1, Same);
      HavingNext(s, n - 1, Unconfirmed);
      HavingNext(s, n - 1, Absent);
      HavingNext(s, n - 1, Unrepeated);
      HavingNext(s, n - 1, Shaky(true));
      HavingNext(s, n - 1, Shaky(false));
    }
  }

  /** The divergent inputs, in the order in which they are found. */
  lemma {:induction false} TallyDivergent(s: Sides, n: nat)
    ensures forall d :: d in TallyOf(s, n).divergent <==> exists i: nat :: i < n && Find(s, i).Split? && d == DivergentAt(s, i)
    ensures forall d :: d in TallyOf(s, n).divergent ==> 0 <= d.index < n
  {
    if n > 0 {
      TallyDivergent(s, n - 1);
      forall d
        ensures d in TallyOf(s, n).divergent <==> exists i: nat :: i < n && Find(s, i).Split? && d == DivergentAt(s, i)
      {
        if Find(s, n - 1).Split? && d == DivergentAt(s, n - 1) {
          assert d in TallyOf(s, n).divergent;
        }
      }
    }
  }
}

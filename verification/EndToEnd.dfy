/** Soundness and completeness. */
module EndToEnd {
  import opened Utf8
  import opened Json
  import opened Records
  import opened Emitter
  import opened Automaton
  import opened Language
  import opened Normalizer
  import opened Capture
  import opened Lossy
  import opened Validator
  import opened Divergence
  import opened Compare
  import opened Evaluator
  import Wire

  // ----- what an outcome means about the recorded sides -----

  /** The comparison takes place: something was planned, and the checks are one experiment. */
  predicate Compares(passed: PassedIn, c: Checks, test: string, planned: int) {
    planned >= 1 && !c.runner.UnknownRunner? && Consistent(c, SidesOf(passed, c, test, planned))
  }

  /** d stands for an input that differs in the first pair and that each revision repeated. */
  predicate Reproduced(s: Sides, d: Divergent) {
    && d.index >= 0
    && s.b1.Record(d.index) == Some(d.base) && s.c1.Record(d.index) == Some(d.candidate)
    && !d.base.unstable && !d.candidate.unstable && !Agrees(d.base, d.candidate)
    && s.b2.Record(d.index).Some? && Repeats(s.b2.Record(d.index).value, d.base)
    && s.c2.Record(d.index).Some? && Repeats(s.c2.Record(d.index).value, d.candidate)
  }

  lemma SplitIsReproduced(s: Sides, i: nat)
    requires Find(s, i).Split?
    ensures Reproduced(s, DivergentAt(s, i))
  {}

  lemma ListedSplits(s: Sides, n: nat)
    ensures var t := TallyOf(s, n);
            && (t.diverged > 0 <==> exists i: nat :: i < n && Find(s, i).Split?)
            && |t.divergent| == t.diverged
            && forall d :: d in Listed(t.divergent) ==> d.index < n && Reproduced(s, d)
  {
    hide Find, Reproduced, Less, Listed;
    var t := TallyOf(s, n);
    TallyBalances(s, n);
    TallyDivergent(s, n);
    forall i: nat | i < n && Find(s, i).Split?
      ensures DivergentAt(s, i) in t.divergent
    {}
    if t.divergent == [] {
      assert Listed(t.divergent) == [];
    } else {
      assert t.divergent[0] in t.divergent;
      ListedIsChoice(t.divergent);
      InBoth(t.divergent, Listed(t.divergent));
      forall d | d in Listed(t.divergent)
        ensures d.index < n && Reproduced(s, d)
      {
        var i: nat :| i < n && Find(s, i).Split? && d == DivergentAt(s, i);
        SplitIsReproduced(s, i);
      }
    }
  }

  /**
   DIVERGED exactly when some input was reproduced as different; every listed input was, and
   the first of them is the counterexample.
   */
  lemma DivergedMeans(passed: PassedIn, c: Checks, test: string, planned: int)
    ensures var ev, s := Evaluated(passed, c, test, planned), SidesOf(passed, c, test, planned);
            && (ev.outcome.Diverged? <==>
                Compares(passed, c, test, planned) && exists i: nat :: i < planned && Find(s, i).Split?)
            && (ev.outcome.Diverged? ==> ev.divergent != [] && forall d :: d in ev.divergent ==> d.index < planned && Reproduced(s, d))
  {
    hide Consistent, Find, Reproduced, SidesOf, TallyOf;
    if planned >= 1 {
      ListedSplits(SidesOf(passed, c, test, planned), planned);
    }
  }

  /** The counterexample and the order of the list. */
  lemma CounterexampleChoice(passed: PassedIn, c: Checks, test: string, planned: int)
    requires Evaluated(passed, c, test, planned).outcome.Diverged?
    ensures var ev := Evaluated(passed, c, test, planned);
            && ev.divergent != []
            && IsLeast(ev.divergent, ev.divergent[0])
            && (SomeShows(ev.divergent) ==> ev.divergent[0].Shows())
            && Ordered(ev.divergent[1..])
  {
    hide Ordered, Less;
    var t := TallyOf(SidesOf(passed, c, test, planned), planned);
    TallyBalances(SidesOf(passed, c, test, planned), planned);
    ListedIsChoice(t.divergent);
    InBoth(t.divergent, Listed(t.divergent));
    assert SomeShows(t.divergent) <==> SomeShows(Listed(t.divergent));
  }

  lemma {:induction false} FunctionsEach(display: nat, runner: Runner, ended: bool, timedOut: bool, fs: seq<FunctionStream>, f: FunctionStream)
    requires FunctionsOk(display, runner, ended, timedOut, fs) && f in fs
    ensures exists late :: FunctionOk(display, runner, late, f)
    decreases |fs|
  {
    hide FunctionOk;
    if f != fs[0] {
      FunctionsEach(display, runner, EndsProcess(ended, fs[0]), TimesOut(timedOut, fs[0]), fs[1..], f);
    }
  }

  /** A usable side shows the function of that name in a stream that passed the checks. */
  lemma UsableStream(passed: PassedIn, c: Option<Check>, kind: CheckKind, test: string, planned: int, allowReplay: bool,
                     runner: EvidenceRunner)
    requires ViewOf(passed, c, kind, test, planned, allowReplay, runner).usable
    ensures var s := ViewOf(passed, c, kind, test, planned, allowReplay, runner);
            && c.Some? && ParsedStream(c.value).Some? && Validates(ParsedStream(c.value).value)
            && s.stream == Lookup(ParsedStream(c.value).value.functions, test) && s.stream.Some?
            && s.stream.value.planned == planned && !EndedHere(s.stream.value)
  {
    hide Validates, Lookup;
  }

  /** A usable side whose function is complete has a record of every planned input. */
  lemma CompleteHasAll(passed: PassedIn, c: Option<Check>, kind: CheckKind, test: string, planned: int, allowReplay: bool,
                       runner: EvidenceRunner, i: nat)
    requires var s := ViewOf(passed, c, kind, test, planned, allowReplay, runner); s.IsComplete() && i < planned
    ensures ViewOf(passed, c, kind, test, planned, allowReplay, runner).Record(i).Some?
  {
    hide FunctionOk, FunctionsOk, ViewOf, IsTestName;
    var s := ViewOf(passed, c, kind, test, planned, allowReplay, runner);
    UsableStream(passed, c, kind, test, planned, allowReplay, runner);
    var stream := ParsedStream(c.value).value;
    FunctionsEach(stream.display, stream.runner, false, false, stream.functions, s.stream.value);
    var late :| FunctionOk(stream.display, stream.runner, late, s.stream.value);
    CompleteCount(stream.display, stream.runner, late, s.stream.value);
  }

  lemma CompleteCount(display: nat, runner: Runner, late: bool, f: FunctionStream)
    requires FunctionOk(display, runner, late, f) && f.state.Complete?
    ensures |f.records| == f.planned
  {}

  /** Neither revision separates at this input: equal, or unstable on the baseline itself. */
  predicate Unseparated(f: Finding) {
    f.Same? || f == Shaky(false)
  }

  /**
   NOT_DIVERGED exactly when both first streams are complete, every planned input is equal or
   flagged unstable on the baseline, and at least one is equal.
   */
  lemma NotDivergedMeans(passed: PassedIn, c: Checks, test: string, planned: int)
    ensures var ev, s := Evaluated(passed, c, test, planned), SidesOf(passed, c, test, planned);
            ev.outcome.NotDiverged? <==>
            && Compares(passed, c, test, planned)
            && s.b1.IsComplete() && s.c1.IsComplete()
            && (forall i: nat :: i < planned ==> Unseparated(Find(s, i)))
            && (exists i: nat :: i < planned && Find(s, i).Same?)
  {
    hide Find;
    var ev, s := Evaluated(passed, c, test, planned), SidesOf(passed, c, test, planned);
    if Compares(passed, c, test, planned) && s.b1.IsComplete() && s.c1.IsComplete() {
      TallyBalances(s, planned);
      TallyCounts(s, planned);
      AllPresent(passed, c, test, planned);
      NoneHaving(s, planned);
      if exists i: nat :: i < planned && Find(s, i).Same? {
        var i: nat :| i < planned && Find(s, i).Same?;
        assert i in Having(s, planned, Same);
      }
      if Having(s, planned, Same) != {} {
        var i :| i in Having(s, planned, Same);
        assert Find(s, i).Same?;
      }
    }
  }

  lemma AllPresent(passed: PassedIn, c: Checks, test: string, planned: int)
    requires var s := SidesOf(passed, c, test, planned); s.b1.IsComplete() && s.c1.IsComplete()
    ensures forall i: nat :: i < planned ==> !Find(SidesOf(passed, c, test, planned), i).Absent?
  {
    hide ViewOf;
    forall i: nat | i < planned
      ensures !Find(SidesOf(passed, c, test, planned), i).Absent?
    {
      CompleteHasAll(passed, c.base, FuzzBase, test, planned, true, c.runner, i);
      CompleteHasAll(passed, c.candidate, FuzzCandidate, test, planned, false, c.runner, i);
    }
  }

  /** The separating findings are none exactly when no input has one. */
  lemma NoneHaving(s: Sides, n: nat)
    ensures (forall i: nat :: i < n ==> Unseparated(Find(s, i)) || Find(s, i).Absent?) <==>
            && |Having(s, n, Split)| == 0 && |Having(s, n, Unconfirmed)| == 0
            && |Having(s, n, Unrepeated)| == 0 && |Having(s, n, Shaky(true))| == 0
  {
    hide Find;
    forall f: Finding
      ensures |Having(s, n, f)| == 0 <==> forall i: nat :: i < n ==> Find(s, i) != f
    {
      if exists i: nat :: i < n && Find(s, i) == f {
        var i: nat :| i < n && Find(s, i) == f;
        assert i in Having(s, n, f);
      }
    }
  }

  // ----- four processes -----

  /** The first and second evaluation of every input of every function, in one process. */
  datatype Launch = Launch(first: seq<seq<Outcome>>, second: seq<seq<Outcome>>) {
    predicate Fits(h: Harness) {
      && |first| == |second| == |h.tests|
      && forall k :: 0 <= k < |h.tests| ==>
           && |first[k]| == |second[k]| == |h.tests[k].inputs|
           && forall i :: 0 <= i < |first[k]| ==> OutcomeFits(h, first[k][i]) && OutcomeFits(h, second[k][i])
    }

    function Results(h: Harness, hash: string -> string): (runs: seq<seq<CallResult>>)
      requires Fits(h)
      ensures |runs| == |h.tests|
      ensures forall k :: 0 <= k < |runs| ==> runs[k] == Judges(hash, h.display, first[k], second[k])
    {
      seq(|h.tests|, k requires 0 <= k < |h.tests| => Judges(hash, h.display, first[k], second[k]))
    }

    /** What the two evaluations of input i of function f gave: one encoding, twice. */
    predicate Repeated(h: Harness, f: int, i: nat)
      requires Fits(h) && h.Has(f) && i < h.Planned(f)
    {
      var x, y := first[f - 1][i], second[f - 1][i];
      x.state.Finished? && y.state.Finished? && x.enc == y.enc && x.cut == y.cut
    }

    function Encoding(h: Harness, f: int, i: nat): string
      requires Fits(h) && h.Has(f) && i < h.Planned(f)
    {
      first[f - 1][i].enc
    }
  }

  lemma ResultsFitHarness(h: Harness, hash: string -> string, launch: Launch)
    requires h.Renderable() && Hashes(hash) && launch.Fits(h)
    ensures RunsFit(h, 1, launch.Results(h, hash)) && SpokenRuns(launch.Results(h, hash))
  {
    hide OutcomeFits, Producible, Spoken;
    var runs := launch.Results(h, hash);
    forall k, i | 0 <= k < |runs| && 0 <= i < |runs[k]|
      ensures Producible(h, runs[k][i]) && Spoken(runs[k][i])
    {
      JudgeFits(h, hash, launch.first[k][i], launch.second[k][i]);
    }
  }

  lemma JudgeFits(h: Harness, hash: string -> string, first: Outcome, second: Outcome)
    requires Hashes(hash) && OutcomeFits(h, first) && OutcomeFits(h, second)
    ensures Producible(h, Judge(hash, h.display, first, second)) && Spoken(Judge(hash, h.display, first, second))
  {
    hide Valid, Repair;
    JudgeProducible(h, hash, first, second);
    RepairOfValid(first.enc);
  }

  /** The functions a process left behind when it ended after m lines. */
  function Left(h: Harness, red: Redaction, hash: string -> string, launch: Launch, m: nat): seq<FunctionStream>
    requires h.Renderable() && Hashes(hash) && launch.Fits(h)
  {
    ResultsFitHarness(h, hash, launch);
    StreamOf(h, red, 1, false, launch.Results(h, hash), m)
  }

  /** A check that holds the stream of a process, or no stream; everything else about it is free. */
  ghost predicate Holds(c: Option<Check>, h: Harness, red: Redaction, hash: string -> string, launch: Launch)
    requires h.Renderable() && Hashes(hash) && launch.Fits(h)
  {
    c.Some? && c.value.results.Stored? ==>
      exists m: nat :: c.value.results.stream == Stream(h.display, h.runner, Left(h, red, hash, launch, m))
  }

  // ----- a record tells of its evaluations -----

  lemma {:induction false} RanRecords(h: Harness, red: Redaction, f: int, records: seq<Record>, poisoned: bool, rs: seq<CallResult>, i: nat)
    requires h.Has(f) && |records| + |rs| == h.Planned(f) && (poisoned ==> rs != [])
    requires |records| <= i < |RanStream(h, red, f, records, poisoned, rs).records|
    ensures var k := i - |records|;
            && k < |rs| && rs[k].Observed?
            && RanStream(h, red, f, records, poisoned, rs).records[i] == RecordOf(h, red, f, rs[k].obs, i)
    decreases |rs|
  {
    hide RecordOf;
    if !poisoned && rs != [] && rs[0].Observed? {
      var next := records + [RecordOf(h, red, f, rs[0].obs, |records|)];
      RanKeeps(h, red, f, next, poisoned, rs[1..]);
      if i > |records| {
        RanRecords(h, red, f, next, poisoned, rs[1..], i);
      }
    }
  }

  lemma {:induction false} RanKeeps(h: Harness, red: Redaction, f: int, records: seq<Record>, poisoned: bool, rs: seq<CallResult>)
    requires h.Has(f) && |records| + |rs| == h.Planned(f) && (poisoned ==> rs != [])
    ensures records <= RanStream(h, red, f, records, poisoned, rs).records
    decreases |rs|
  {
    hide RecordOf;
    if !poisoned && rs != [] && rs[0].Observed? {
      RanKeeps(h, red, f, records + [RecordOf(h, red, f, rs[0].obs, |records|)], poisoned, rs[1..]);
    }
  }

  /** Record i of function g is what the results of that input led to, wherever the process ended. */
  lemma {:induction false} StreamRecords(h: Harness, red: Redaction, f: int, poisoned: bool, runs: seq<seq<CallResult>>, m: nat, g: int, i: nat)
    requires h.Renderable() && RunsFit(h, f, runs) && f <= g <= |h.tests|
    requires |StreamOf(h, red, f, poisoned, runs, m)| == |h.tests| + 1 - f
    requires i < |StreamOf(h, red, f, poisoned, runs, m)[g - f].records|
    ensures i < |runs[g - f]| == h.Planned(g) && runs[g - f][i].Observed?
    ensures StreamOf(h, red, f, poisoned, runs, m)[g - f].records[i] == RecordOf(h, red, g, runs[g - f][i].obs, i)
    decreases |runs|
  {
    hide RecordOf, TestLines, StreamOf, ResultsFit, RanStream, RecordsIn, Unstarted, Poisons;
    PlannedResults(h, f, runs, g);
    StreamStep(h, red, f, poisoned, runs, m);
    if m == 0 {
      UnstartedState(h, f, g - f);
    } else {
      var ls := TestLines(h, f, poisoned, runs[0]);
      if m < |ls| {
        if g == f {
          RecordsInTest(h, red, f, poisoned, runs[0], m);
        } else {
          UnstartedState(h, f + 1, g - f - 1);
        }
      } else if g == f {
        RanRecords(h, red, f, [], poisoned, runs[0], i);
      } else {
        StreamRecords(h, red, f + 1, Poisons(poisoned, runs[0]), runs[1..], m - |ls|, g, i);
      }
    }
  }

  lemma PlannedResults(h: Harness, f: int, runs: seq<seq<CallResult>>, g: int)
    requires RunsFit(h, f, runs) && f <= g <= |h.tests|
    ensures |runs| == |h.tests| + 1 - f && |runs[g - f]| == h.Planned(g)
  {
    assert ResultsFit(h, runs[g - f], h.Planned(f + (g - f)));
  }

  lemma {:induction false} LookupAt(fs: seq<FunctionStream>, k: nat)
    requires k < |fs| && Distinct(fs)
    ensures Lookup(fs, fs[k].test) == Some(fs[k])
    decreases k
  {
    if k > 0 {
      assert fs[0].test != fs[k].test;
      forall i, j | 0 <= i < j < |fs[1..]|
        ensures fs[1..][i].test != fs[1..][j].test
      {
        assert fs[i + 1].test != fs[j + 1].test;
      }
      LookupAt(fs[1..], k - 1);
    }
  }

  /** What a record of a usable side says about the process behind it. */
  predicate Tells(h: Harness, red: Redaction, hash: string -> string, launch: Launch, f: int, i: nat, r: Record)
    requires launch.Fits(h) && h.Has(f) && i < h.Planned(f)
  {
    var x, y := launch.first[f - 1][i], launch.second[f - 1][i];
    && x.state.Finished? && y.state.Finished?
    && r == RecordOf(h, red, f, Observe(hash, h.display, x, y), i)
  }

  lemma RecordTells(passed: PassedIn, c: Option<Check>, kind: CheckKind, planned: int, allowReplay: bool, runner: EvidenceRunner,
                    h: Harness, red: Redaction, hash: string -> string, launch: Launch, f: int, i: nat)
    requires Proper(h) && Hashes(hash) && launch.Fits(h) && Holds(c, h, red, hash, launch) && h.Has(f)
    requires ViewOf(passed, c, kind, h.Name(f), planned, allowReplay, runner).Record(i).Some?
    ensures i < h.Planned(f)
    ensures Tells(h, red, hash, launch, f, i, ViewOf(passed, c, kind, h.Name(f), planned, allowReplay, runner).Record(i).value)
  {
    hide ViewOf, StreamOf, Validates, RecordOf;
    UsableStream(passed, c, kind, h.Name(f), planned, allowReplay, runner);
    var s := ViewOf(passed, c, kind, h.Name(f), planned, allowReplay, runner);
    var m: nat :| c.value.results.stream == Stream(h.display, h.runner, Left(h, red, hash, launch, m));
    var fs, runs := Left(h, red, hash, launch, m), launch.Results(h, hash);
    ResultsFitHarness(h, hash, launch);
    FunctionAt(h, red, runs, m, f);
    assert s.stream == Some(fs[f - 1]);
    StreamRecords(h, red, 1, false, runs, m, f, i);
  }

  /** Function f of a stream is found by its name. */
  lemma FunctionAt(h: Harness, red: Redaction, runs: seq<seq<CallResult>>, m: nat, f: int)
    requires Proper(h) && RunsFit(h, 1, runs) && SpokenRuns(runs) && h.Has(f)
    ensures var fs := StreamOf(h, red, 1, false, runs, m);
            |fs| == |h.tests| && Lookup(fs, h.Name(f)) == Some(fs[f - 1])
  {
    hide StreamOf;
    var fs := StreamOf(h, red, 1, false, runs, m);
    StreamNamed(h, red, 1, false, runs, m);
    PlannedDistinct(h, fs);
    assert fs[f - 1].test == h.Name(1 + (f - 1));
    LookupAt(fs, f - 1);
  }

  // ----- soundness -----

  /** Four launches of one harness: both revisions, twice. */
  datatype Launches = Launches(b1: Launch, c1: Launch, b2: Launch, c2: Launch) {
    predicate Fits(h: Harness) {
      b1.Fits(h) && c1.Fits(h) && b2.Fits(h) && c2.Fits(h)
    }
  }

  ghost predicate AllHold(c: Checks, h: Harness, red: Redaction, hash: string -> string, l: Launches)
    requires h.Renderable() && Hashes(hash) && l.Fits(h)
  {
    && Holds(c.base, h, red, hash, l.b1) && Holds(c.candidate, h, red, hash, l.c1)
    && Holds(c.baseConfirm, h, red, hash, l.b2) && Holds(c.candidateConfirm, h, red, hash, l.c2)
  }

  /** At input i, the code of each revision repeated itself, and the revisions differ. */
  predicate Differs(h: Harness, hash: string -> string, l: Launches, f: int, i: nat)
    requires l.Fits(h) && h.Has(f) && i < h.Planned(f)
  {
    && l.b1.Repeated(h, f, i) && l.b2.Repeated(h, f, i) && l.c1.Repeated(h, f, i) && l.c2.Repeated(h, f, i)
    && hash(l.b1.Encoding(h, f, i)) == hash(l.b2.Encoding(h, f, i))
    && |l.b1.Encoding(h, f, i)| == |l.b2.Encoding(h, f, i)|
    && hash(l.c1.Encoding(h, f, i)) == hash(l.c2.Encoding(h, f, i))
    && |l.c1.Encoding(h, f, i)| == |l.c2.Encoding(h, f, i)|
    && l.b1.Encoding(h, f, i) != l.c1.Encoding(h, f, i)
  }

  lemma TellsDiffers(h: Harness, red: Redaction, hash: string -> string, l: Launches, f: int, i: nat,
                     b: Record, c: Record, b2: Record, c2: Record)
    requires l.Fits(h) && h.Has(f) && i < h.Planned(f)
    requires Tells(h, red, hash, l.b1, f, i, b) && Tells(h, red, hash, l.c1, f, i, c)
    requires Tells(h, red, hash, l.b2, f, i, b2) && Tells(h, red, hash, l.c2, f, i, c2)
    requires !b.unstable && !c.unstable && !Agrees(b, c) && Repeats(b2, b) && Repeats(c2, c)
    ensures Differs(h, hash, l, f, i)
  {}

  /**
   DIVERGED is sound: whatever the four processes did, wherever they died and whatever their
   checks say, at every listed input both evaluations of every process agreed, each revision
   repeated its hash and length in its second process, and the two revisions' encodings
   differ. Nothing is assumed of the hash but that it is a function.
   */
  lemma Soundness(passed: PassedIn, c: Checks, h: Harness, red: Redaction, hash: string -> string, l: Launches, f: int)
    requires Proper(h) && Hashes(hash) && l.Fits(h) && h.Has(f) && AllHold(c, h, red, hash, l)
    requires Evaluated(passed, c, h.Name(f), h.Planned(f)).outcome.Diverged?
    ensures var ev := Evaluated(passed, c, h.Name(f), h.Planned(f));
            && ev.divergent != []
            && forall d :: d in ev.divergent ==> 0 <= d.index < h.Planned(f) && Differs(h, hash, l, f, d.index)
  {
    hide Evaluated, Differs, ViewOf, Tells;
    var test, n := h.Name(f), h.Planned(f);
    DivergedMeans(passed, c, test, n);
    var s := SidesOf(passed, c, test, n);
    forall d | d in Evaluated(passed, c, test, n).divergent
      ensures 0 <= d.index < n && Differs(h, hash, l, f, d.index)
    {
      RecordTells(passed, c.base, FuzzBase, n, true, c.runner, h, red, hash, l.b1, f, d.index);
      RecordTells(passed, c.candidate, FuzzCandidate, n, false, c.runner, h, red, hash, l.c1, f, d.index);
      RecordTells(passed, c.baseConfirm, FuzzBaseConfirm, n, false, c.runner, h, red, hash, l.b2, f, d.index);
      RecordTells(passed, c.candidateConfirm, FuzzCandidateConfirm, n, false, c.runner, h, red, hash, l.c2, f, d.index);
      TellsDiffers(h, red, hash, l, f, d.index, d.base, d.candidate, s.b2.Record(d.index).value, s.c2.Record(d.index).value);
    }
  }

  // ----- completeness -----

  /** Every evaluation finished, and the second one gave what the first one gave. */
  ghost predicate Settled(h: Harness, launch: Launch) {
    launch.Fits(h) && forall f, i: nat :: h.Has(f) && i < h.Planned(f) ==> launch.Repeated(h, f, i)
  }

  /** Two launches of one deterministic revision. */
  ghost predicate SameCode(h: Harness, x: Launch, y: Launch) {
    && Settled(h, x) && Settled(h, y)
    && forall f, i: nat :: h.Has(f) && i < h.Planned(f) ==> x.Encoding(h, f, i) == y.Encoding(h, f, i)
  }

  /** The observed results of functions f, f+1, ... */
  predicate AllObserved(runs: seq<seq<CallResult>>) {
    forall k, i :: 0 <= k < |runs| && 0 <= i < |runs[k]| ==> runs[k][i].Observed?
  }

  lemma SettledObserved(h: Harness, hash: string -> string, launch: Launch)
    requires Settled(h, launch)
    ensures AllObserved(launch.Results(h, hash))
  {
    var runs: seq<seq<CallResult>> := launch.Results(h, hash);
    forall k, i | 0 <= k < |runs| && 0 <= i < |runs[k]|
      ensures runs[k][i].Observed?
    {
      assert launch.Repeated(h, k + 1, i);
    }
  }

  lemma {:induction false} RanToTheEnd(h: Harness, red: Redaction, f: int, records: seq<Record>, rs: seq<CallResult>)
    requires h.Has(f) && |records| + |rs| == h.Planned(f) && forall i :: 0 <= i < |rs| ==> rs[i].Observed?
    ensures var fn := RanStream(h, red, f, records, false, rs); fn.state.Complete? && |fn.records| == h.Planned(f)
    ensures !Poisons(false, rs)
    decreases |rs|
  {
    hide RecordOf;
    if rs != [] {
      RanToTheEnd(h, red, f, records + [RecordOf(h, red, f, rs[0].obs, |records|)], rs[1..]);
    }
  }

  lemma AllObservedParts(runs: seq<seq<CallResult>>)
    requires AllObserved(runs) && runs != []
    ensures AllObserved(runs[1..]) && forall i :: 0 <= i < |runs[0]| ==> runs[0][i].Observed?
  {
    forall k, i | 0 <= k < |runs[1..]| && 0 <= i < |runs[1..][k]|
      ensures runs[1..][k][i].Observed?
    {
      assert runs[k + 1][i].Observed?;
    }
  }

  /** A process that ran to completion left every function complete. */
  lemma {:induction false} CompleteRun(h: Harness, red: Redaction, f: int, runs: seq<seq<CallResult>>, g: int)
    requires h.Renderable() && RunsFit(h, f, runs) && AllObserved(runs) && f <= g <= |h.tests|
    ensures var fs := StreamOf(h, red, f, false, runs, |RunLines(h, f, false, runs)|);
            && |fs| == |h.tests| + 1 - f
            && fs[g - f].state.Complete? && |fs[g - f].records| == h.Planned(g)
    decreases |runs|
  {
    hide TestLines, RecordsIn, StreamOf, RanStream, ResultsFit, Poisons, AllObserved;
    var m := |RunLines(h, f, false, runs)|;
    PlannedResults(h, f, runs, f);
    StreamStep(h, red, f, false, runs, m);
    AllObservedParts(runs);
    RanToTheEnd(h, red, f, [], runs[0]);
    StreamOfSize(h, red, f, false, runs, m);
    assert m == |TestLines(h, f, false, runs[0])| + |RunLines(h, f + 1, false, runs[1..])|;
    if g > f {
      CompleteRun(h, red, f + 1, runs[1..], g);
    }
  }

  /** The stream of a process that ran to completion. */
  function Full(h: Harness, red: Redaction, hash: string -> string, launch: Launch): Stream
    requires h.Renderable() && Hashes(hash) && launch.Fits(h)
  {
    ResultsFitHarness(h, hash, launch);
    Stream(h.display, h.runner, Left(h, red, hash, launch, |Run(h, launch.Results(h, hash))|))
  }

  /** A clean check of a process that ran to completion: a live passing run with its whole stream and log. */
  predicate Clean(passed: PassedIn, c: Option<Check>, kind: CheckKind, command: seq<string>, pkg: string, h: Harness, test: string, stream: Stream) {
    && c.Some? && c.value.kind == kind && !c.value.replayed && c.value.status.Pass? && c.value.exitCode == 0
    && !c.value.truncated && c.value.results == Stored(stream) && c.value.command == command
    && (h.runner.GoTest? ==> passed(c.value.output, test) == pkg)
  }

  predicate RunnerOf(r: EvidenceRunner, h: Harness) {
    r == Named(h.runner) || (r.Unnamed? && h.runner.GoTest?)
  }

  /** The package every clean side names. */
  function PackageOf(h: Harness, pkg: string): string {
    if h.runner.GoTest? then pkg else SCRIPT_PACKAGE
  }

  lemma CleanSide(passed: PassedIn, c: Option<Check>, kind: CheckKind, allowReplay: bool, runner: EvidenceRunner,
                  command: seq<string>, pkg: string, h: Harness, test: string, stream: Stream)
    requires Clean(passed, c, kind, command, pkg, h, test, stream) && pkg != "" && RunnerOf(runner, h)
    requires Validates(stream) && stream.runner == h.runner
    requires Lookup(stream.functions, test).Some? && Lookup(stream.functions, test).value.state.Complete?
    ensures ViewOf(passed, c, kind, test, Lookup(stream.functions, test).value.planned, allowReplay, runner) ==
            Side(true, NoProblem, Lookup(stream.functions, test), false, PackageOf(h, pkg))
  {
    hide Validates, Lookup;
  }

  /** The side of a clean check: usable, complete, and its records tell of the settled launch. */
  predicate CleanlyTells(s: Side, h: Harness, red: Redaction, hash: string -> string, launch: Launch, f: int, pkg: string)
    requires launch.Fits(h) && h.Has(f)
  {
    && s.usable && s.IsComplete() && s.pkg == PackageOf(h, pkg)
    && |s.stream.value.records| == h.Planned(f)
    && forall i: nat :: i < h.Planned(f) ==> s.Record(i).Some? && Tells(h, red, hash, launch, f, i, s.Record(i).value)
  }

  /** The whole stream of a settled launch passes the checks and shows function f as complete. */
  lemma FullStream(h: Harness, red: Redaction, hash: string -> string, launch: Launch, f: int)
    requires Proper(h) && Hashes(hash) && red.KeepsUtf8() && Settled(h, launch) && h.Has(f)
    ensures var stream := Full(h, red, hash, launch);
            && Validates(stream) && stream.runner == h.runner
            && var fn := Lookup(stream.functions, h.Name(f));
               fn.Some? && fn.value.state.Complete? && fn.value.planned == h.Planned(f) && |fn.value.records| == h.Planned(f)
  {
    hide StreamOf, Validates, RecordOf, Lookup, RunLines, RunsFit, SpokenRuns, AllObserved, Launch.Results;
    var runs := launch.Results(h, hash);
    ResultsFitHarness(h, hash, launch);
    SettledObserved(h, hash, launch);
    FullRun(h, red, runs, f);
  }

  /** The whole stream of a run in which every input was observed. */
  lemma FullRun(h: Harness, red: Redaction, runs: seq<seq<CallResult>>, f: int)
    requires Proper(h) && red.KeepsUtf8() && RunsFit(h, 1, runs) && SpokenRuns(runs) && AllObserved(runs) && h.Has(f)
    ensures var stream := Stream(h.display, h.runner, StreamOf(h, red, 1, false, runs, |Run(h, runs)|));
            && Validates(stream)
            && var fn := Lookup(stream.functions, h.Name(f));
               fn.Some? && fn.value.state.Complete? && fn.value.planned == h.Planned(f) && |fn.value.records| == h.Planned(f)
  {
    hide StreamOf, Validates, RecordOf, Lookup, RunLines, SpokenRuns, AllObserved;
    var m := |Run(h, runs)|;
    CompleteRun(h, red, 1, runs, f);
    FunctionAt(h, red, runs, m, f);
    StreamNamed(h, red, 1, false, runs, m);
    assert StreamOf(h, red, 1, false, runs, m)[f - 1].planned == h.Planned(1 + (f - 1));
    NormalizedValidates(h, red, runs, m);
  }

  lemma CleanHolds(passed: PassedIn, c: Option<Check>, kind: CheckKind, command: seq<string>, pkg: string, h: Harness, red: Redaction,
                   hash: string -> string, launch: Launch, test: string)
    requires h.Renderable() && Hashes(hash) && launch.Fits(h)
    requires Clean(passed, c, kind, command, pkg, h, test, Full(h, red, hash, launch))
    ensures Holds(c, h, red, hash, launch)
  {
    hide StreamOf, Launch.Fits, Run;
    ResultsFitHarness(h, hash, launch);
  }

  lemma CleanTells(passed: PassedIn, c: Option<Check>, kind: CheckKind, allowReplay: bool, runner: EvidenceRunner,
                   command: seq<string>, pkg: string, h: Harness, red: Redaction, hash: string -> string, launch: Launch, f: int)
    requires Proper(h) && Hashes(hash) && red.KeepsUtf8() && Settled(h, launch) && h.Has(f)
    requires Clean(passed, c, kind, command, pkg, h, h.Name(f), Full(h, red, hash, launch)) && pkg != "" && RunnerOf(runner, h)
    ensures CleanlyTells(ViewOf(passed, c, kind, h.Name(f), h.Planned(f), allowReplay, runner), h, red, hash, launch, f, pkg)
  {
    hide ViewOf, Full, Validates, RecordOf, Tells, Lookup, Clean, RunnerOf;
    var stream := Full(h, red, hash, launch);
    FullStream(h, red, hash, launch, f);
    CleanSide(passed, c, kind, allowReplay, runner, command, pkg, h, h.Name(f), stream);
    CleanHolds(passed, c, kind, command, pkg, h, red, hash, launch, h.Name(f));
    var s := ViewOf(passed, c, kind, h.Name(f), h.Planned(f), allowReplay, runner);
    forall i: nat | i < h.Planned(f)
      ensures s.Record(i).Some? && Tells(h, red, hash, launch, f, i, s.Record(i).value)
    {
      RecordTells(passed, c, kind, h.Planned(f), allowReplay, runner, h, red, hash, launch, f, i);
    }
  }

  predicate AllTell(s: Sides, h: Harness, red: Redaction, hash: string -> string, l: Launches, f: int, pkg: string)
    requires l.Fits(h) && h.Has(f)
  {
    && CleanlyTells(s.b1, h, red, hash, l.b1, f, pkg) && CleanlyTells(s.c1, h, red, hash, l.c1, f, pkg)
    && CleanlyTells(s.b2, h, red, hash, l.b2, f, pkg) && CleanlyTells(s.c2, h, red, hash, l.c2, f, pkg)
  }

  /** The recorded results of the two revisions agree at input i. */
  predicate Matches(h: Harness, hash: string -> string, l: Launches, f: int, i: nat)
    requires l.Fits(h) && h.Has(f) && i < h.Planned(f)
  {
    var x, y := l.b1.Encoding(h, f, i), l.c1.Encoding(h, f, i);
    hash(x) == hash(y) && |x| == |y|
  }

  lemma FindClean(s: Sides, h: Harness, red: Redaction, hash: string -> string, l: Launches, f: int, pkg: string, i: nat)
    requires l.Fits(h) && h.Has(f) && i < h.Planned(f) && AllTell(s, h, red, hash, l, f, pkg)
    requires SameCode(h, l.b1, l.b2) && SameCode(h, l.c1, l.c2)
    ensures Find(s, i) == if Matches(h, hash, l, f, i) then Same else Split
  {
    hide DisplayValue;
    assert l.b1.Repeated(h, f, i) && l.b2.Repeated(h, f, i) && l.c1.Repeated(h, f, i) && l.c2.Repeated(h, f, i);
    assert l.b1.Encoding(h, f, i) == l.b2.Encoding(h, f, i) && l.c1.Encoding(h, f, i) == l.c2.Encoding(h, f, i);
    assert s.b1.Record(i).Some? && s.c1.Record(i).Some? && s.b2.Record(i).Some? && s.c2.Record(i).Some?;
  }

  lemma CallsTold(s: Side, h: Harness, red: Redaction, hash: string -> string, launch: Launch, f: int, pkg: string, r: Record)
    requires launch.Fits(h) && h.Has(f) && CleanlyTells(s, h, red, hash, launch, f, pkg) && r in RecordsAt(s)
    ensures 0 <= r.index < h.Planned(f) && r.call == h.tests[f - 1].inputs[r.index]
  {
    hide DisplayValue;
    var i :| 0 <= i < |s.stream.value.records| && s.stream.value.records[i] == r;
    assert s.Record(i) == Some(r);
  }

  lemma CleanCorpus(s: Sides, h: Harness, red: Redaction, hash: string -> string, l: Launches, f: int, pkg: string)
    requires l.Fits(h) && h.Has(f) && AllTell(s, h, red, hash, l, f, pkg)
    ensures OneCorpus(s.List()) && OnePackage(s.List())
  {
    hide RecordsAt;
    forall r | r in RecordsAt(s.b1) || r in RecordsAt(s.c1) || r in RecordsAt(s.b2) || r in RecordsAt(s.c2)
      ensures 0 <= r.index < h.Planned(f) && r.call == h.tests[f - 1].inputs[r.index]
    {
      if r in RecordsAt(s.b1) {
        CallsTold(s.b1, h, red, hash, l.b1, f, pkg, r);
      } else if r in RecordsAt(s.c1) {
        CallsTold(s.c1, h, red, hash, l.c1, f, pkg, r);
      } else if r in RecordsAt(s.b2) {
        CallsTold(s.b2, h, red, hash, l.b2, f, pkg, r);
      } else {
        CallsTold(s.c2, h, red, hash, l.c2, f, pkg, r);
      }
    }
  }

  ghost predicate AllClean(passed: PassedIn, c: Checks, command: seq<string>, pkg: string, h: Harness, red: Redaction,
                           hash: string -> string, l: Launches, f: int)
    requires h.Renderable() && Hashes(hash) && l.Fits(h) && h.Has(f)
  {
    && Clean(passed, c.base, FuzzBase, command, pkg, h, h.Name(f), Full(h, red, hash, l.b1))
    && Clean(passed, c.candidate, FuzzCandidate, command, pkg, h, h.Name(f), Full(h, red, hash, l.c1))
    && Clean(passed, c.baseConfirm, FuzzBaseConfirm, command, pkg, h, h.Name(f), Full(h, red, hash, l.b2))
    && Clean(passed, c.candidateConfirm, FuzzCandidateConfirm, command, pkg, h, h.Name(f), Full(h, red, hash, l.c2))
    && RunnerOf(c.runner, h) && command != [] && pkg != ""
  }

  lemma CleanSides(passed: PassedIn, c: Checks, command: seq<string>, pkg: string, h: Harness, red: Redaction,
                   hash: string -> string, l: Launches, f: int)
    requires Proper(h) && Hashes(hash) && red.KeepsUtf8() && l.Fits(h) && h.Has(f)
    requires SameCode(h, l.b1, l.b2) && SameCode(h, l.c1, l.c2) && AllClean(passed, c, command, pkg, h, red, hash, l, f)
    ensures AllTell(SidesOf(passed, c, h.Name(f), h.Planned(f)), h, red, hash, l, f, pkg)
    ensures Compares(passed, c, h.Name(f), h.Planned(f))
  {
    hide ViewOf, Full, CleanlyTells, OneCorpus, OnePackage;
    CleanTells(passed, c.base, FuzzBase, true, c.runner, command, pkg, h, red, hash, l.b1, f);
    CleanTells(passed, c.candidate, FuzzCandidate, false, c.runner, command, pkg, h, red, hash, l.c1, f);
    CleanTells(passed, c.baseConfirm, FuzzBaseConfirm, false, c.runner, command, pkg, h, red, hash, l.b2, f);
    CleanTells(passed, c.candidateConfirm, FuzzCandidateConfirm, false, c.runner, command, pkg, h, red, hash, l.c2, f);
    CleanCorpus(SidesOf(passed, c, h.Name(f), h.Planned(f)), h, red, hash, l, f, pkg);
  }

  /**
   Complete for deterministic code: when all four processes run to completion and leave clean
   checks, the function diverges exactly when the recorded hash or length of some input
   differs between the revisions, and does not diverge exactly when all of them agree.
   */
  lemma Completeness(passed: PassedIn, c: Checks, command: seq<string>, pkg: string, h: Harness, red: Redaction,
                     hash: string -> string, l: Launches, f: int)
    requires Proper(h) && Hashes(hash) && red.KeepsUtf8() && l.Fits(h) && h.Has(f)
    requires SameCode(h, l.b1, l.b2) && SameCode(h, l.c1, l.c2) && AllClean(passed, c, command, pkg, h, red, hash, l, f)
    ensures var verdict := Evaluated(passed, c, h.Name(f), h.Planned(f)).outcome;
            && (verdict.Diverged? <==> exists i: nat :: i < h.Planned(f) && !Matches(h, hash, l, f, i))
            && (verdict.NotDiverged? <==> forall i: nat :: i < h.Planned(f) ==> Matches(h, hash, l, f, i))
  {
    hide Evaluated, SidesOf, Matches, Find, AllClean, SameCode, Compares;
    var test, n := h.Name(f), h.Planned(f);
    var s := SidesOf(passed, c, test, n);
    CleanSides(passed, c, command, pkg, h, red, hash, l, f);
    forall i: nat | i < n
      ensures Find(s, i) == if Matches(h, hash, l, f, i) then Same else Split
    {
      FindClean(s, h, red, hash, l, f, pkg, i);
    }
    assert n >= 1 && (Matches(h, hash, l, f, 0) ==> Find(s, 0).Same?);
    DivergedMeans(passed, c, test, n);
    NotDivergedMeans(passed, c, test, n);
  }

  // ----- down to the bytes -----

  /** What the channel may have captured of a process: its file, cut at any byte. */
  ghost predicate Captured(h: Harness, hash: string -> string, launch: Launch, payload: string)
    requires h.Renderable() && Hashes(hash) && launch.Fits(h)
  {
    ResultsFitHarness(h, hash, launch);
    payload != "" && payload <= Wire.File(Run(h, launch.Results(h, hash)))
  }

  /** The check stores what Normalize makes of the payload, or no stream. */
  ghost predicate Normalizes(c: Option<Check>, h: Harness, red: Redaction, payload: string)
    requires h.Renderable()
  {
    c.Some? && c.value.results.Stored? ==>
      Normal(h, red, payload).Some? && c.value.results.stream == Stream(h.display, h.runner, Normal(h, red, payload).value)
  }

  lemma CapturedHolds(c: Option<Check>, h: Harness, red: Redaction, hash: string -> string, launch: Launch, payload: string)
    requires Rendered(h) && Hashes(hash) && launch.Fits(h) && Captured(h, hash, launch, payload) && Normalizes(c, h, red, payload)
    ensures Holds(c, h, red, hash, launch)
  {
    hide Normal, Run, StreamOf;
    if c.Some? && c.value.results.Stored? {
      ResultsFitHarness(h, hash, launch);
      var runs := launch.Results(h, hash);
      CapturedPrefix(h, red, runs, payload);
      var m: nat :| 0 < m <= |Run(h, runs)| && payload == Wire.File(Run(h, runs)[..m])
                    && Normal(h, red, payload) == Some(StreamOf(h, red, 1, false, runs, m));
      assert c.value.results.stream == Stream(h.display, h.runner, Left(h, red, hash, launch, m));
    }
  }

  /** What a process may leave behind: it may die at any byte, and any of its writes may fail at any byte. */
  ghost predicate LeavesBehind(h: Harness, hash: string -> string, launch: Launch, payload: string)
    requires h.Renderable() && Hashes(hash) && launch.Fits(h)
  {
    exists chunks :: Leaves(h, launch.Results(h, hash), chunks) && payload == Glued(chunks)
  }

  lemma CapturedIsLeft(h: Harness, hash: string -> string, launch: Launch, payload: string)
    requires h.Renderable() && Hashes(hash) && launch.Fits(h) && Captured(h, hash, launch, payload)
    ensures LeavesBehind(h, hash, launch, payload)
  {
    hide Run, Front, Block, Wire.File, Glued, Launch.Fits;
    ResultsFitHarness(h, hash, launch);
    var runs := launch.Results(h, hash);
    FrontIsRun(h, runs);
    var chunks := DeathIsLoss(h, runs, |runs|, payload);
    assert Leaves(h, runs, chunks);
  }

  lemma LeftHolds(c: Option<Check>, h: Harness, red: Redaction, hash: string -> string, launch: Launch, payload: string)
    requires Rendered(h) && Hashes(hash) && launch.Fits(h) && LeavesBehind(h, hash, launch, payload) && Normalizes(c, h, red, payload)
    ensures Holds(c, h, red, hash, launch)
  {
    hide Normal, Run, StreamOf, Wire.File, Glued, Leaves, Launch.Fits;
    if c.Some? && c.value.results.Stored? {
      ResultsFitHarness(h, hash, launch);
      var runs := launch.Results(h, hash);
      var chunks :| Leaves(h, runs, chunks) && payload == Glued(chunks);
      LossIsRefused(h, red, runs, chunks);
      CapturedHolds(c, h, red, hash, launch, payload);
    }
  }

  lemma TestNameIsText(runner: Runner, suffix: string, number: nat)
    requires LowerHex(suffix)
    ensures Valid(suffix) && Valid(TestName(runner, suffix, number))
  {
    hide Itoa, Valid;
    AsciiIsValid(suffix);
    AsciiIsValid(TestName(runner, suffix, number));
  }

  /** What Render guarantees is more than the reader of the stream needs. */
  lemma ProperIsRendered(h: Harness)
    requires Proper(h)
    ensures Rendered(h)
  {
    hide TestName, Valid;
    forall k | 0 <= k < |h.tests|
      ensures Valid(h.tests[k].name) && Wire.Int64(|h.tests[k].inputs|)
    {
      TestNameIsText(h.runner, h.suffix, k + 1);
      InputsBound(h.tests, k);
    }
    TestNameIsText(h.runner, h.suffix, 1);
  }

  /** The four payloads of the two pairs. */
  datatype Payloads = Payloads(b1: string, c1: string, b2: string, c2: string)

  ghost predicate AllLeft(h: Harness, hash: string -> string, l: Launches, p: Payloads)
    requires h.Renderable() && Hashes(hash) && l.Fits(h)
  {
    && LeavesBehind(h, hash, l.b1, p.b1) && LeavesBehind(h, hash, l.c1, p.c1)
    && LeavesBehind(h, hash, l.b2, p.b2) && LeavesBehind(h, hash, l.c2, p.c2)
  }

  /**
   The same down to the bytes: four processes write their records byte by byte, may die at any byte,
   and any of their writes may fail at any byte; what they left is normalized, checked and compared;
   and a DIVERGED of that still means that the revisions' code differs at every listed input.
   */
  lemma SoundnessOfBytes(passed: PassedIn, c: Checks, h: Harness, red: Redaction, hash: string -> string, l: Launches, p: Payloads, f: int)
    requires Proper(h) && Hashes(hash) && l.Fits(h) && h.Has(f) && AllLeft(h, hash, l, p)
    requires Normalizes(c.base, h, red, p.b1) && Normalizes(c.candidate, h, red, p.c1)
    requires Normalizes(c.baseConfirm, h, red, p.b2) && Normalizes(c.candidateConfirm, h, red, p.c2)
    requires Evaluated(passed, c, h.Name(f), h.Planned(f)).outcome.Diverged?
    ensures var ev := Evaluated(passed, c, h.Name(f), h.Planned(f));
            && ev.divergent != []
            && forall d :: d in ev.divergent ==> 0 <= d.index < h.Planned(f) && Differs(h, hash, l, f, d.index)
  {
    hide Evaluated, Differs, LeavesBehind, Normalizes, Holds;
    ProperIsRendered(h);
    LeftHolds(c.base, h, red, hash, l.b1, p.b1);
    LeftHolds(c.candidate, h, red, hash, l.c1, p.c1);
    LeftHolds(c.baseConfirm, h, red, hash, l.b2, p.b2);
    LeftHolds(c.candidateConfirm, h, red, hash, l.c2, p.c2);
    Soundness(passed, c, h, red, hash, l, f);
  }
}

/** What every outcome rests on. */
module Gates {
  import opened Json
  import opened Records
  import opened Validator
  import opened Divergence
  import opened Compare
  import opened Evaluator
  import opened EndToEnd

  // ----- what a check must show -----

  /**
   The run itself: of the right kind, live or an agreed replay where one may stand. A Go run passed,
   or failed with an exit code of its own, and its whole log shows one pass of the test; a
   script run passed.
   */
  predicate Ran(passed: PassedIn, c: Check, kind: CheckKind, test: string, mayReplay: bool, runner: EvidenceRunner) {
    && c.kind == kind
    && (c.replayed ==> mayReplay && c.liveRuns >= 2)
    && if runner.Framed() then c.status.Pass? && c.exitCode == 0
       else
         && ((c.status.Pass? && c.exitCode == 0) || (c.status.Fail? && 1 <= c.exitCode <= 124))
         && !c.truncated && passed(c.output, test) != ""
  }

  /** Its stream: one that passes the checks, of a harness of this runner, with the whole of the function. */
  predicate Tells(c: Check, runner: EvidenceRunner, test: string, planned: int, fn: FunctionStream) {
    && c.results.Stored? && Validates(c.results.stream)
    && c.results.stream.runner == (if runner.Framed() then runner.runner else GoTest)
    && fn in c.results.stream.functions && fn.test == test && fn.planned == planned
    && (fn.state.Complete? || fn.state.Stopped?)
  }

  /** The four checks in their order: both sides of the first pair, and of the confirmation. */
  function CheckAt(c: Checks, k: nat): Option<Check> {
    match k case 0 => c.base case 1 => c.candidate case 2 => c.baseConfirm case 3 => c.candidateConfirm case _ => None
  }

  function KindAt(k: nat): CheckKind {
    match k case 0 => FuzzBase case 1 => FuzzCandidate case 2 => FuzzBaseConfirm case 3 => FuzzCandidateConfirm case _ => OtherCheck
  }

  /** Check k counts, and `fn` is what it recorded of the test. Only the baseline may be a replay. */
  predicate Counts(passed: PassedIn, c: Checks, test: string, planned: int, k: nat, fn: FunctionStream) {
    && CheckAt(c, k).Some?
    && Ran(passed, CheckAt(c, k).value, KindAt(k), test, k == 0, c.runner)
    && Tells(CheckAt(c, k).value, c.runner, test, planned, fn)
  }

  /** The package of a check that counts: the one its log names, or the one of all scripts. */
  function Package(passed: PassedIn, c: Checks, test: string, k: nat): string {
    if c.runner.Framed() || CheckAt(c, k).None? then SCRIPT_PACKAGE else passed(CheckAt(c, k).value.output, test)
  }

  /**
   One experiment: one identical nonempty command over the checks that are there, and one package and one
   call at every index over those that count.
   */
  ghost predicate OneExperiment(passed: PassedIn, c: Checks, test: string, planned: int) {
    && (forall k: nat :: CheckAt(c, k).Some? ==> CheckAt(c, k).value.command != [])
    && (forall j: nat, k: nat :: CheckAt(c, j).Some? && CheckAt(c, k).Some? ==> CheckAt(c, j).value.command == CheckAt(c, k).value.command)
    && (forall j: nat, k: nat, f, g :: Counts(passed, c, test, planned, j, f) && Counts(passed, c, test, planned, k, g) ==>
          && Package(passed, c, test, j) == Package(passed, c, test, k)
          && SameCallsAt(f, g))
  }

  predicate SameCallsAt(f: FunctionStream, g: FunctionStream) {
    forall x, y :: x in f.records && y in g.records && x.index == y.index ==> x.call == y.call
  }

  // ----- sides and checks -----

  function SideAt(s: Sides, k: nat): Side {
    match k case 0 => s.b1 case 1 => s.c1 case 2 => s.b2 case 3 => s.c2 case _ => ABSENT
  }

  lemma LookupUnique(fs: seq<FunctionStream>, fn: FunctionStream)
    requires Distinct(fs) && fn in fs
    ensures Lookup(fs, fn.test) == Some(fn)
  {
    var k :| 0 <= k < |fs| && fs[k] == fn;
    LookupAt(fs, k);
  }

  lemma {:induction false} NotReading(display: nat, runner: Runner, ended: bool, timedOut: bool, fs: seq<FunctionStream>, fn: FunctionStream)
    requires FunctionsOk(display, runner, ended, timedOut, fs) && fn in fs
    ensures !fn.state.Reading?
    decreases |fs|
  {
    if fs[0] != fn {
      NotReading(display, runner, EndsProcess(ended, fs[0]), TimesOut(timedOut, fs[0]), fs[1..], fn);
    } else {
      StateIsRead(display, runner, timedOut, fn);
    }
  }

  lemma StateIsRead(display: nat, runner: Runner, timedOut: bool, fn: FunctionStream)
    requires FunctionOk(display, runner, timedOut, fn)
    ensures !fn.state.Reading?
  {
    hide IsTestName, RecordOk;
  }

  /** The function of a stream that passes: found by its name, in a state that is one of four. */
  lemma ShownFunction(c: Check, test: string, fn: FunctionStream)
    requires c.results.Stored? && Validates(c.results.stream)
    ensures fn in c.results.stream.functions && fn.test == test <==> Lookup(c.results.stream.functions, test) == Some(fn)
    ensures fn in c.results.stream.functions ==> !fn.state.Reading?
  {
    hide FunctionsOk, Lookup;
    var s := c.results.stream;
    if fn in s.functions {
      LookupUnique(s.functions, fn);
      NotReading(s.display, s.runner, false, false, s.functions, fn);
    }
  }

  /** A side is usable exactly when its check counts, and then shows what it recorded. */
  lemma ViewExact(passed: PassedIn, c: Option<Check>, kind: CheckKind, test: string, planned: int, mayReplay: bool, runner: EvidenceRunner,
                  fn: FunctionStream)
    ensures var s := ViewOf(passed, c, kind, test, planned, mayReplay, runner);
            && (s.usable && s.stream == Some(fn) <==>
                  c.Some? && Ran(passed, c.value, kind, test, mayReplay, runner) && Tells(c.value, runner, test, planned, fn))
            && (s.usable ==> s.pkg == if runner.Framed() then SCRIPT_PACKAGE else passed(c.value.output, test))
  {
    hide Validates, Lookup;
    if c.Some? && c.value.results.Stored? && Validates(c.value.results.stream) {
      ShownFunction(c.value, test, fn);
    }
  }

  lemma SideCounts(passed: PassedIn, c: Checks, test: string, planned: int, k: nat, fn: FunctionStream)
    ensures var s := SideAt(SidesOf(passed, c, test, planned), k);
            && (s.usable && s.stream == Some(fn) <==> Counts(passed, c, test, planned, k, fn))
            && (s.usable ==> s.stream.Some? && s.pkg == Package(passed, c, test, k))
  {
    hide ViewOf, Ran, Tells;
    ViewExact(passed, c.base, FuzzBase, test, planned, true, c.runner, fn);
    ViewExact(passed, c.candidate, FuzzCandidate, test, planned, false, c.runner, fn);
    ViewExact(passed, c.baseConfirm, FuzzBaseConfirm, test, planned, false, c.runner, fn);
    ViewExact(passed, c.candidateConfirm, FuzzCandidateConfirm, test, planned, false, c.runner, fn);
    assert SidesOf(passed, c, test, planned).Sound();
    NoCheckNoView(passed, c, test, planned);
  }

  lemma NoCheckNoView(passed: PassedIn, c: Checks, test: string, planned: int)
    ensures c.base.None? ==> !SidesOf(passed, c, test, planned).b1.usable
    ensures c.candidate.None? ==> !SidesOf(passed, c, test, planned).c1.usable
    ensures c.baseConfirm.None? ==> !SidesOf(passed, c, test, planned).b2.usable
    ensures c.candidateConfirm.None? ==> !SidesOf(passed, c, test, planned).c2.usable
  {
    hide GoView, ScriptView;
  }

  lemma CommandsAgree(c: Checks)
    ensures OneCommand([c.base, c.candidate, c.baseConfirm, c.candidateConfirm]) <==>
            && (forall k: nat :: CheckAt(c, k).Some? ==> CheckAt(c, k).value.command != [])
            && (forall j: nat, k: nat :: CheckAt(c, j).Some? && CheckAt(c, k).Some? ==> CheckAt(c, j).value.command == CheckAt(c, k).value.command)
  {
    var all := [c.base, c.candidate, c.baseConfirm, c.candidateConfirm];
    assert forall k: nat :: CheckAt(c, k).Some? ==> k < 4 && all[k] == CheckAt(c, k);
    assert forall k :: 0 <= k < |all| ==> all[k] == CheckAt(c, k);
    if OneCommand(all) {
      forall j: nat, k: nat | CheckAt(c, j).Some? && CheckAt(c, k).Some?
        ensures CheckAt(c, j).value.command == CheckAt(c, k).value.command
      {
        assert all[j] == CheckAt(c, j) && all[k] == CheckAt(c, k);
      }
    }
  }

  /** What two sides must share. */
  predicate Share(s: Side, t: Side) {
    s.usable && t.usable ==>
      && s.pkg == t.pkg
      && forall x, y :: x in RecordsAt(s) && y in RecordsAt(t) && x.index == y.index ==> x.call == y.call
  }

  lemma ListShares(s: Sides)
    ensures OnePackage(s.List()) && OneCorpus(s.List()) <==> forall j, k :: 0 <= j < 4 && 0 <= k < 4 ==> Share(SideAt(s, j), SideAt(s, k))
  {
    hide RecordsAt;
    var all := s.List();
    assert forall k :: 0 <= k < 4 ==> all[k] == SideAt(s, k);
    if OnePackage(all) && OneCorpus(all) {
      forall j, k | 0 <= j < 4 && 0 <= k < 4
        ensures Share(SideAt(s, j), SideAt(s, k))
      {
        assert all[j] == SideAt(s, j) && all[k] == SideAt(s, k);
      }
    }
    if forall j, k :: 0 <= j < 4 && 0 <= k < 4 ==> Share(SideAt(s, j), SideAt(s, k)) {
      forall j, k | 0 <= j < |all| && 0 <= k < |all|
        ensures all[j].usable && all[k].usable ==> all[j].pkg == all[k].pkg
        ensures forall x, y :: x in RecordsAt(all[j]) && y in RecordsAt(all[k]) && x.index == y.index ==> x.call == y.call
      {
        assert Share(SideAt(s, j), SideAt(s, k));
        Unrecorded(all[j]);
        Unrecorded(all[k]);
      }
    }
  }

  lemma Unrecorded(s: Side)
    ensures !s.usable ==> RecordsAt(s) == []
  {}

  lemma ShareExact(passed: PassedIn, c: Checks, test: string, planned: int, j: nat, k: nat)
    ensures Share(SideAt(SidesOf(passed, c, test, planned), j), SideAt(SidesOf(passed, c, test, planned), k)) <==>
            forall f, g :: Counts(passed, c, test, planned, j, f) && Counts(passed, c, test, planned, k, g) ==>
              Package(passed, c, test, j) == Package(passed, c, test, k) && SameCallsAt(f, g)
  {
    hide SidesOf, Counts, Package;
    var s, t := SideAt(SidesOf(passed, c, test, planned), j), SideAt(SidesOf(passed, c, test, planned), k);
    forall f
      ensures Counts(passed, c, test, planned, j, f) <==> s.usable && s.stream == Some(f)
      ensures Counts(passed, c, test, planned, k, f) <==> t.usable && t.stream == Some(f)
      ensures s.usable ==> s.stream.Some? && s.pkg == Package(passed, c, test, j)
      ensures t.usable ==> t.stream.Some? && t.pkg == Package(passed, c, test, k)
    {
      SideCounts(passed, c, test, planned, j, f);
      SideCounts(passed, c, test, planned, k, f);
    }
    if s.usable && t.usable {
      var f, g := s.stream.value, t.stream.value;
      assert Counts(passed, c, test, planned, j, f) && Counts(passed, c, test, planned, k, g);
      assert RecordsAt(s) == f.records && RecordsAt(t) == g.records;
    }
  }

  lemma CountsFour(passed: PassedIn, c: Checks, test: string, planned: int, k: nat, fn: FunctionStream)
    ensures Counts(passed, c, test, planned, k, fn) ==> k < 4
  {}

  /** The checks are consistent exactly when they are one experiment. */
  lemma ExperimentExact(passed: PassedIn, c: Checks, test: string, planned: int)
    ensures Consistent(c, SidesOf(passed, c, test, planned)) <==> OneExperiment(passed, c, test, planned)
  {
    hide SidesOf, Counts, Package, OneCommand, OnePackage, OneCorpus, Share, SideAt, CheckAt, SameCallsAt;
    var s := SidesOf(passed, c, test, planned);
    CommandsAgree(c);
    ListShares(s);
    forall j: nat, k: nat
      ensures Share(SideAt(s, j), SideAt(s, k)) <==>
              forall f, g :: Counts(passed, c, test, planned, j, f) && Counts(passed, c, test, planned, k, g) ==>
                Package(passed, c, test, j) == Package(passed, c, test, k) && SameCallsAt(f, g)
    {
      ShareExact(passed, c, test, planned, j, k);
    }
    forall k: nat, fn
      ensures Counts(passed, c, test, planned, k, fn) ==> k < 4
    {
      CountsFour(passed, c, test, planned, k, fn);
    }
  }

  // ----- what the outcomes say of the checks -----

  /** Both records of input i are steady, and the revisions' values differ or agree. */
  predicate Steady(b: FunctionStream, k: FunctionStream, i: nat) {
    i < |b.records| && i < |k.records| && !b.records[i].unstable && !k.records[i].unstable
  }

  predicate RecordedAgain(first: FunctionStream, again: FunctionStream, i: nat) {
    && i < |first.records| && i < |again.records| && !again.records[i].unstable
    && again.records[i].hash == first.records[i].hash && again.records[i].length == first.records[i].length
  }

  predicate SameValue(b: FunctionStream, k: FunctionStream, i: nat) {
    && i < |b.records| && i < |k.records|
    && b.records[i].hash == k.records[i].hash && b.records[i].length == k.records[i].length
  }

  /** The four checks count, are one experiment, and reproduce a difference at some planned input. */
  ghost predicate Separates(passed: PassedIn, c: Checks, test: string, planned: int) {
    && planned >= 1 && !c.runner.UnknownRunner? && OneExperiment(passed, c, test, planned)
    && exists b, k, b2, k2 ::
         && Counts(passed, c, test, planned, 0, b) && Counts(passed, c, test, planned, 1, k)
         && Counts(passed, c, test, planned, 2, b2) && Counts(passed, c, test, planned, 3, k2)
         && exists i: nat :: i < planned && Reproduces(b, k, b2, k2, i)
  }

  /** Four functions reproduce a difference at input i. */
  predicate Reproduces(b: FunctionStream, k: FunctionStream, b2: FunctionStream, k2: FunctionStream, i: nat) {
    Steady(b, k, i) && !SameValue(b, k, i) && RecordedAgain(b, b2, i) && RecordedAgain(k, k2, i)
  }

  lemma FindSplit(s: Sides, i: nat)
    requires s.Sound()
    ensures Find(s, i).Split? <==>
            && s.b1.usable && s.c1.usable && s.b2.usable && s.c2.usable
            && Reproduces(s.b1.stream.value, s.c1.stream.value, s.b2.stream.value, s.c2.stream.value, i)
  {}

  /** The sides as they are usable, told by the checks. */
  lemma SidesCount(passed: PassedIn, c: Checks, test: string, planned: int)
    ensures var s := SidesOf(passed, c, test, planned);
            && (forall fn :: Counts(passed, c, test, planned, 0, fn) <==> s.b1.usable && s.b1.stream == Some(fn))
            && (forall fn :: Counts(passed, c, test, planned, 1, fn) <==> s.c1.usable && s.c1.stream == Some(fn))
            && (forall fn :: Counts(passed, c, test, planned, 2, fn) <==> s.b2.usable && s.b2.stream == Some(fn))
            && (forall fn :: Counts(passed, c, test, planned, 3, fn) <==> s.c2.usable && s.c2.stream == Some(fn))
  {
    hide SidesOf, Counts;
    forall fn, k: nat | k < 4
      ensures var s := SideAt(SidesOf(passed, c, test, planned), k);
              Counts(passed, c, test, planned, k, fn) <==> s.usable && s.stream == Some(fn)
    {
      SideCounts(passed, c, test, planned, k, fn);
    }
  }

  /**
   DIVERGED says exactly this of the checks, whatever a side is: all four count, they are one
   experiment, and at some planned input the revisions recorded steady, different values that
   each recorded again.
   */
  lemma DivergedExact(passed: PassedIn, c: Checks, test: string, planned: int)
    ensures Evaluated(passed, c, test, planned).outcome.Diverged? <==> Separates(passed, c, test, planned)
  {
    hide Evaluated, Compares, Find, Separates;
    DivergedMeans(passed, c, test, planned);
    var s := SidesOf(passed, c, test, planned);
    if Separates(passed, c, test, planned) {
      var i := SeparatesSplits(passed, c, test, planned);
    }
    if i: nat :| Compares(passed, c, test, planned) && i < planned && Find(s, i).Split? {
      SplitSeparates(passed, c, test, planned, i);
    }
  }

  lemma SeparatesSplits(passed: PassedIn, c: Checks, test: string, planned: int) returns (i: nat)
    requires Separates(passed, c, test, planned)
    ensures Compares(passed, c, test, planned) && i < planned && Find(SidesOf(passed, c, test, planned), i).Split?
  {
    hide SidesOf, Counts, Consistent, OneExperiment, Find, Reproduces;
    var s := SidesOf(passed, c, test, planned);
    ExperimentExact(passed, c, test, planned);
    SidesCount(passed, c, test, planned);
    var b, k, b2, k2 :|
      && Counts(passed, c, test, planned, 0, b) && Counts(passed, c, test, planned, 1, k)
      && Counts(passed, c, test, planned, 2, b2) && Counts(passed, c, test, planned, 3, k2)
      && exists j: nat :: j < planned && Reproduces(b, k, b2, k2, j);
    i :| i < planned && Reproduces(b, k, b2, k2, i);
    FindSplit(s, i);
  }

  lemma SplitSeparates(passed: PassedIn, c: Checks, test: string, planned: int, i: nat)
    requires Compares(passed, c, test, planned) && i < planned && Find(SidesOf(passed, c, test, planned), i).Split?
    ensures Separates(passed, c, test, planned)
  {
    hide SidesOf, Counts, Consistent, OneExperiment, Find, Reproduces;
    var s := SidesOf(passed, c, test, planned);
    ExperimentExact(passed, c, test, planned);
    SidesCount(passed, c, test, planned);
    FindSplit(s, i);
    var b, k, b2, k2 := s.b1.stream.value, s.c1.stream.value, s.b2.stream.value, s.c2.stream.value;
    assert Counts(passed, c, test, planned, 0, b) && Counts(passed, c, test, planned, 1, k);
    assert Counts(passed, c, test, planned, 2, b2) && Counts(passed, c, test, planned, 3, k2);
  }

  /** Both checks of the first pair count and are complete, nothing separates, and something agrees. */
  ghost predicate AgreesThroughout(passed: PassedIn, c: Checks, test: string, planned: int) {
    && planned >= 1 && !c.runner.UnknownRunner? && OneExperiment(passed, c, test, planned)
    && exists b, k ::
         && Counts(passed, c, test, planned, 0, b) && Counts(passed, c, test, planned, 1, k)
         && b.state.Complete? && k.state.Complete?
         && (forall i: nat :: i < planned ==> NeverSeparates(b, k, i))
         && exists i: nat :: i < planned && Steady(b, k, i) && SameValue(b, k, i)
  }

  /** Input i was recorded on both sides, and the baseline was unsteady or both were steady and agreed. */
  predicate NeverSeparates(b: FunctionStream, k: FunctionStream, i: nat) {
    i < |b.records| && i < |k.records| && (b.records[i].unstable || (Steady(b, k, i) && SameValue(b, k, i)))
  }

  lemma FindSame(s: Sides, i: nat)
    requires s.Sound()
    ensures Find(s, i).Same? <==>
            s.b1.usable && s.c1.usable && Steady(s.b1.stream.value, s.c1.stream.value, i) && SameValue(s.b1.stream.value, s.c1.stream.value, i)
    ensures Unseparated(Find(s, i)) <==> s.b1.usable && s.c1.usable && NeverSeparates(s.b1.stream.value, s.c1.stream.value, i)
  {}

  /** NOT_DIVERGED says exactly this of the checks. */
  lemma NotDivergedExact(passed: PassedIn, c: Checks, test: string, planned: int)
    ensures Evaluated(passed, c, test, planned).outcome.NotDiverged? <==> AgreesThroughout(passed, c, test, planned)
  {
    hide Evaluated, SidesOf, Counts, Consistent, OneExperiment, Find, Steady, SameValue, NeverSeparates, Unseparated;
    var s := SidesOf(passed, c, test, planned);
    NotDivergedMeans(passed, c, test, planned);
    ExperimentExact(passed, c, test, planned);
    SidesCount(passed, c, test, planned);
    forall i: nat
      ensures Find(s, i).Same? <==>
              s.b1.usable && s.c1.usable && Steady(s.b1.stream.value, s.c1.stream.value, i) && SameValue(s.b1.stream.value, s.c1.stream.value, i)
      ensures Unseparated(Find(s, i)) <==> s.b1.usable && s.c1.usable && NeverSeparates(s.b1.stream.value, s.c1.stream.value, i)
    {
      FindSame(s, i);
    }
    if AgreesThroughout(passed, c, test, planned) {
      var b, k :|
         && Counts(passed, c, test, planned, 0, b) && Counts(passed, c, test, planned, 1, k)
         && b.state.Complete? && k.state.Complete?
         && (forall i: nat :: i < planned ==> NeverSeparates(b, k, i))
         && exists i: nat :: i < planned && Steady(b, k, i) && SameValue(b, k, i);
    }
    if Evaluated(passed, c, test, planned).outcome.NotDiverged? {
      var b, k := s.b1.stream.value, s.c1.stream.value;
      assert Counts(passed, c, test, planned, 0, b) && Counts(passed, c, test, planned, 1, k);
    }
  }

  /** So an outcome rests on runs that took place: both of the first pair, and all four for a divergence. */
  lemma OutcomesRest(passed: PassedIn, c: Checks, test: string, planned: int)
    ensures var outcome := Evaluated(passed, c, test, planned).outcome;
            && (!outcome.Inconclusive? ==> c.base.Some? && Ran(passed, c.base.value, FuzzBase, test, true, c.runner)
                                           && c.candidate.Some? && Ran(passed, c.candidate.value, FuzzCandidate, test, false, c.runner))
            && (outcome.Diverged? ==> c.baseConfirm.Some? && Ran(passed, c.baseConfirm.value, FuzzBaseConfirm, test, false, c.runner)
                                      && c.candidateConfirm.Some? && Ran(passed, c.candidateConfirm.value, FuzzCandidateConfirm, test, false, c.runner))
  {
    hide Evaluated, Ran, Tells, OneExperiment, Steady, SameValue, Reproduces, NeverSeparates;
    DivergedExact(passed, c, test, planned);
    NotDivergedExact(passed, c, test, planned);
  }

  // ----- what a reason says -----

  /** What a problem of a side says of its check. */
  predicate ProblemHolds(passed: PassedIn, c: Option<Check>, kind: CheckKind, test: string, planned: int, mayReplay: bool,
                         runner: EvidenceRunner, p: Problem)
  {
    if c.None? then p.DidNotRun?
    else
      var k := c.value;
      match p
      case NoProblem => false
      case DidNotRun => false
      case WrongKind => k.kind != kind
      case Replayed => k.replayed && !mayReplay
      case ReplayedUnagreed => k.replayed && k.liveRuns < 2
      case BadStatus => k.status.OtherStatus?
      case BadExitCode => !(k.status.Pass? && k.exitCode == 0) && (runner.Framed() || !(k.status.Fail? && 1 <= k.exitCode <= 124))
      case LogTruncated => !runner.Framed() && k.truncated
      case FailedWithoutStream => k.status.Fail? && k.results.Missing?
      case NoStream => !k.status.Fail? && k.results.Missing?
      case StreamRejected => k.results.Unreadable? || (k.results.Stored? && !Validates(k.results.stream))
      case OtherHarness => k.results.Stored? && k.results.stream.runner != (if runner.Framed() then runner.runner else GoTest)
      case TestMissing => k.results.Stored? && forall fn :: fn in k.results.stream.functions ==> fn.test != test
      case OtherPlan => k.results.Stored? && exists fn :: fn in k.results.stream.functions && fn.test == test && fn.planned != planned
      case NotOnePass => !runner.Framed() && passed(k.output, test) == ""
      case EndedEarly => k.results.Stored? && exists fn :: fn in k.results.stream.functions && fn.test == test && EndedHere(fn)
  }

  lemma GoProblemTells(passed: PassedIn, c: Check, kind: CheckKind, test: string, planned: int, mayReplay: bool, runner: EvidenceRunner)
    requires !runner.Framed()
    ensures var s := GoView(passed, c, kind, test, planned, mayReplay);
            !s.usable ==> ProblemHolds(passed, Some(c), kind, test, planned, mayReplay, runner, s.problem)
  {
    hide Validates, Lookup;
    LookupTells(c, test);
  }

  lemma ScriptProblemTells(passed: PassedIn, c: Check, kind: CheckKind, test: string, planned: int, mayReplay: bool, runner: EvidenceRunner)
    requires runner.Framed()
    ensures var s := ScriptView(c, kind, test, planned, mayReplay, runner.runner);
            !s.usable ==> ProblemHolds(passed, Some(c), kind, test, planned, mayReplay, runner, s.problem)
  {
    hide Validates, Lookup;
    LookupTells(c, test);
  }

  lemma LookupTells(c: Check, test: string)
    ensures c.results.Stored? ==>
              var l := Lookup(c.results.stream.functions, test);
              && (l.Some? ==> l.value in c.results.stream.functions && l.value.test == test)
              && (l.None? ==> forall fn :: fn in c.results.stream.functions ==> fn.test != test)
  {
    hide Validates, Lookup;
  }

  /** A side that is not usable tells of its check what is so. */
  lemma ProblemTells(passed: PassedIn, c: Option<Check>, kind: CheckKind, test: string, planned: int, mayReplay: bool, runner: EvidenceRunner)
    ensures var s := ViewOf(passed, c, kind, test, planned, mayReplay, runner);
            !s.usable ==> ProblemHolds(passed, c, kind, test, planned, mayReplay, runner, s.problem)
  {
    hide GoView, ScriptView;
    if c.Some? {
      hide ProblemHolds;
      if runner.Framed() {
        ScriptProblemTells(passed, c.value, kind, test, planned, mayReplay, runner);
      } else {
        GoProblemTells(passed, c.value, kind, test, planned, mayReplay, runner);
      }
      assert c == Some(c.value);
    }
  }

  lemma StateOfSide(passed: PassedIn, c: Option<Check>, kind: CheckKind, test: string, planned: int, mayReplay: bool, runner: EvidenceRunner)
    ensures var s := ViewOf(passed, c, kind, test, planned, mayReplay, runner);
            s.usable ==> s.stream.Some? && (s.stream.value.state.Complete? || s.stream.value.state.Stopped?)
  {
    hide ViewOf, Ran, Validates;
    var s := ViewOf(passed, c, kind, test, planned, mayReplay, runner);
    if s.usable {
      ViewExact(passed, c, kind, test, planned, mayReplay, runner, s.stream.value);
    }
  }

  /** Why an evaluation is inconclusive, as a statement about the checks. */
  ghost predicate ReasonHolds(passed: PassedIn, c: Checks, test: string, planned: int, r: Reason) {
    var s := SidesOf(passed, c, test, planned);
    match r
    case NoReason => false
    case NothingPlanned => planned < 1
    case UnknownRunnerNamed => c.runner.UnknownRunner?
    case NotOneExperiment => !OneExperiment(passed, c, test, planned)
    case NotConfirmed(p) =>
      && (exists i: nat :: i < planned && Find(s, i).Unconfirmed?)
      && ((p.DidNotRun? && !Confirms(c))
          || (!s.b2.usable && ProblemHolds(passed, c.baseConfirm, FuzzBaseConfirm, test, planned, false, c.runner, p))
          || (!s.c2.usable && ProblemHolds(passed, c.candidateConfirm, FuzzCandidateConfirm, test, planned, false, c.runner, p))
          || (p.NoProblem? && s.b2.usable && s.c2.usable))
    case BaselineUnusable(p) => ProblemHolds(passed, c.base, FuzzBase, test, planned, true, c.runner, p)
    case CandidateUnusable(p) => s.b1.usable && ProblemHolds(passed, c.candidate, FuzzCandidate, test, planned, false, c.runner, p)
    case BaselineStopped => exists fn :: Counts(passed, c, test, planned, 0, fn) && fn.state.Stopped?
    case CandidateStopped => s.b1.IsComplete() && exists fn :: Counts(passed, c, test, planned, 1, fn) && fn.state.Stopped?
    case AllUnstable => forall i: nat :: i < planned ==> Find(s, i).Shaky? || Find(s, i).Unrepeated?
    case SomeSeparate(n) => planned >= 1 && 0 < n == |Having(s, planned, Unrepeated)| + |Having(s, planned, Shaky(true))|
    case NothingCompared => false
  }

  /**
   The reason of an inconclusive evaluation is true of its checks, a conclusive one has none, and the
   last reason of the rule, that no input was compared, is never given.
   */
  lemma ReasonTells(passed: PassedIn, c: Checks, test: string, planned: int)
    ensures var ev := Evaluated(passed, c, test, planned);
            && (ev.reason.NoReason? <==> !ev.outcome.Inconclusive?)
            && (ev.outcome.Inconclusive? ==> ReasonHolds(passed, c, test, planned, ev.reason))
  {
    hide SidesOf, Find, OneExperiment, Counts, ProblemHolds;
    ExperimentExact(passed, c, test, planned);
    if planned >= 1 && !c.runner.UnknownRunner? && Consistent(c, SidesOf(passed, c, test, planned)) {
      hide ReasonHolds, Consistent, Why;
      var n: nat := planned;
      if TallyOf(SidesOf(passed, c, test, planned), n).diverged == 0 {
        WhyTells(passed, c, test, n);
      }
    }
  }

  lemma WhyTells(passed: PassedIn, c: Checks, test: string, planned: nat)
    requires planned >= 1
    ensures var s := SidesOf(passed, c, test, planned);
            var r := Why(s, Confirms(c), planned, TallyOf(s, planned));
            TallyOf(s, planned).diverged == 0 && !r.NoReason? ==> ReasonHolds(passed, c, test, planned, r)
  {
    hide ViewOf, ProblemHolds, Find, TallyOf, OneExperiment;
    var s, t := SidesOf(passed, c, test, planned), TallyOf(SidesOf(passed, c, test, planned), planned);
    var r := Why(s, Confirms(c), planned, t);
    TallyCounts(s, planned);
    TallyBalances(s, planned);
    if t.unconfirmed > 0 {
      var i :| i in Having(s, planned, Unconfirmed);
      assert Find(s, i).Unconfirmed?;
      ProblemTells(passed, c.baseConfirm, FuzzBaseConfirm, test, planned, false, c.runner);
      ProblemTells(passed, c.candidateConfirm, FuzzCandidateConfirm, test, planned, false, c.runner);
    } else if !s.b1.usable || !s.c1.usable {
      ProblemTells(passed, c.base, FuzzBase, test, planned, true, c.runner);
      ProblemTells(passed, c.candidate, FuzzCandidate, test, planned, false, c.runner);
    } else if !s.b1.IsComplete() || !s.c1.IsComplete() {
      StoppedTells(passed, c, test, planned);
    } else if t.diverged == 0 {
      AllCounted(passed, c, test, planned);
    }
  }

  lemma StoppedTells(passed: PassedIn, c: Checks, test: string, planned: nat)
    ensures var s := SidesOf(passed, c, test, planned);
            && (s.b1.usable && !s.b1.IsComplete() ==> exists fn :: Counts(passed, c, test, planned, 0, fn) && fn.state.Stopped?)
            && (s.c1.usable && !s.c1.IsComplete() ==> exists fn :: Counts(passed, c, test, planned, 1, fn) && fn.state.Stopped?)
  {
    hide ViewOf, Counts;
    SidesCount(passed, c, test, planned);
    StateOfSide(passed, c.base, FuzzBase, test, planned, true, c.runner);
    StateOfSide(passed, c.candidate, FuzzCandidate, test, planned, false, c.runner);
    var s := SidesOf(passed, c, test, planned);
    if s.b1.usable {
      assert Counts(passed, c, test, planned, 0, s.b1.stream.value);
    }
    if s.c1.usable {
      assert Counts(passed, c, test, planned, 1, s.c1.stream.value);
    }
  }

  /** Over complete streams every input is counted, so something was compared or everything was unsteady. */
  lemma AllCounted(passed: PassedIn, c: Checks, test: string, planned: nat)
    requires planned >= 1
    requires var s := SidesOf(passed, c, test, planned);
             s.b1.IsComplete() && s.c1.IsComplete() && TallyOf(s, planned).diverged == 0 && TallyOf(s, planned).unconfirmed == 0
    ensures var s, t := SidesOf(passed, c, test, planned), TallyOf(SidesOf(passed, c, test, planned), planned);
            && t.notRecorded == 0 && t.compared + t.unstable == planned
            && (t.unstable == planned ==> forall i: nat :: i < planned ==> Find(s, i).Shaky? || Find(s, i).Unrepeated?)
  {
    hide SidesOf, Find, TallyOf, Having;
    var s, t := SidesOf(passed, c, test, planned), TallyOf(SidesOf(passed, c, test, planned), planned);
    TallyCounts(s, planned);
    TallyBalances(s, planned);
    AllPresent(passed, c, test, planned);
    HavingNone(s, planned, Absent);
    HavingNone(s, planned, Same);
    HavingNone(s, planned, Split);
    HavingNone(s, planned, Unconfirmed);
  }

  lemma HavingNone(s: Sides, n: nat, f: Finding)
    ensures |Having(s, n, f)| == 0 <==> forall i: nat :: i < n ==> Find(s, i) != f
  {
    hide Find;
    assert |Having(s, n, f)| == 0 <==> Having(s, n, f) == {};
    forall i: nat
      ensures i in Having(s, n, f) <==> i < n && Find(s, i) == f
    {}
    if forall i: nat :: i < n ==> Find(s, i) != f {
      assert Having(s, n, f) == {};
    }
  }

  // ----- the list and its head -----

  /** A shorter call comes before a longer one, and of calls of one length the lower index. */
  predicate Earlier(x: Divergent, y: Divergent) {
    |x.base.call| < |y.base.call| || (|x.base.call| == |y.base.call| && x.index < y.index)
  }

  /** The displays of the two sides differ. */
  predicate Visible(x: Divergent) {
    x.base.display != x.candidate.display
  }

  /**
   The list of a DIVERGED outcome: its head, which is the counterexample, is the earliest input whose displays
   differ, or the earliest of all when none does; the others follow in order.
   */
  lemma ListExact(passed: PassedIn, c: Checks, test: string, planned: int)
    requires Evaluated(passed, c, test, planned).outcome.Diverged?
    ensures var d := Evaluated(passed, c, test, planned).divergent;
            && d != [] && ((exists x :: x in d && Visible(x)) ==> Visible(d[0]))
            && (forall x :: x in d && (Visible(d[0]) ==> Visible(x)) ==> !Earlier(x, d[0]))
            && (forall i, j :: 1 <= i < j < |d| ==> !Earlier(d[j], d[i]))
  {
    hide Evaluated, Less, Earlier, Visible;
    CounterexampleChoice(passed, c, test, planned);
    var d := Evaluated(passed, c, test, planned).divergent;
    forall x: Divergent, y: Divergent
      ensures Earlier(x, y) <==> Less(x, y)
    {
      EarlierIs(x, y);
    }
    forall x: Divergent
      ensures Visible(x) <==> x.Shows()
    {
      VisibleIs(x);
    }
    forall i, j | 1 <= i < j < |d|
      ensures !Earlier(d[j], d[i])
    {
      assert d[1..][i - 1] == d[i] && d[1..][j - 1] == d[j];
    }
  }

  lemma EarlierIs(x: Divergent, y: Divergent)
    ensures Earlier(x, y) <==> Less(x, y)
  {}

  lemma VisibleIs(x: Divergent)
    ensures Visible(x) <==> x.Shows()
  {}

  /** An input that is reproduced as different, with what the first pair recorded of it. */
  ghost predicate IsListed(x: Divergent, b: FunctionStream, k: FunctionStream, b2: FunctionStream, k2: FunctionStream, planned: int) {
    exists i: nat :: i < planned && Reproduces(b, k, b2, k2, i) && x == Divergent(i, b.records[i], k.records[i])
  }

  /**
   What a DIVERGED outcome lists: of the four checks' own records, exactly the planned inputs that are
   reproduced as different, each once; and the counterexample is the call of the first of them with
   what either revision displayed.
   */
  lemma ListedExact(passed: PassedIn, c: Checks, test: string, planned: int)
    returns (b: FunctionStream, k: FunctionStream, b2: FunctionStream, k2: FunctionStream)
    requires Evaluated(passed, c, test, planned).outcome.Diverged?
    ensures Counts(passed, c, test, planned, 0, b) && Counts(passed, c, test, planned, 1, k)
    ensures Counts(passed, c, test, planned, 2, b2) && Counts(passed, c, test, planned, 3, k2)
    ensures var ev := Evaluated(passed, c, test, planned);
            && (forall x :: x in ev.divergent <==> IsListed(x, b, k, b2, k2, planned))
            && |ev.divergent| == |set i | 0 <= i < planned && Reproduces(b, k, b2, k2, i)|
            && ev.divergent != []
            && var d := ev.divergent[0]; ev.counterexample == Some(Counterexample(d.index, d.base.call, d.base.display, d.candidate.display))
  {
    hide SidesOf, Find, TallyOf, Counts, Consistent, Why, Reproduces, Listed;
    var s := SidesOf(passed, c, test, planned);
    var t := TallyOf(s, planned);
    TallyBalances(s, planned);
    TallyDivergent(s, planned);
    TallyCounts(s, planned);
    SidesCount(passed, c, test, planned);
    ListedIsChoice(t.divergent);
    InBoth(t.divergent, Listed(t.divergent));
    assert t.divergent[0] in t.divergent;
    var one: nat :| one < planned && Find(s, one).Split? && t.divergent[0] == DivergentAt(s, one);
    FindSplit(s, one);
    b, k, b2, k2 := s.b1.stream.value, s.c1.stream.value, s.b2.stream.value, s.c2.stream.value;
    forall i: nat
      ensures Find(s, i).Split? <==> Reproduces(b, k, b2, k2, i)
      ensures Find(s, i).Split? ==> i < |b.records| && i < |k.records| && DivergentAt(s, i) == Divergent(i, b.records[i], k.records[i])
    {
      FindSplit(s, i);
      if Find(s, i).Split? {
        SplitRecords(s, i);
      }
    }
    assert Having(s, planned, Split) == set i | 0 <= i < planned && Reproduces(b, k, b2, k2, i);
  }

  lemma SplitRecords(s: Sides, i: nat)
    requires s.Sound() && Find(s, i).Split?
    ensures s.b1.usable && s.c1.usable && i < |s.b1.stream.value.records| && i < |s.c1.stream.value.records|
    ensures DivergentAt(s, i) == Divergent(i, s.b1.stream.value.records[i], s.c1.stream.value.records[i])
  {}
}

/** What the stage reports, exactly. */
module Reported {
  import opened Json
  import opened Records
  import opened Emitter
  import opened Validator
  import opened Compare
  import opened Evaluator
  import opened EndToEnd
  import opened Gates
  import opened Stage
  import Ordering
  import Plan
  import Text

  // ----- what happened to a package -----

  /** Its first pair was run in time, and both checks were recorded. */
  predicate RanFirst(w: World, deadline: int) {
    !w.cancelled && w.now < deadline && w.rendered.Some? && w.first.Some? && w.first.value.HasIds()
  }

  /** Its confirmation pair could be run in time, and both checks would be recorded. */
  predicate CanConfirm(w: World, deadline: int) {
    !w.cancelledThen && w.nowThen < deadline && w.second.Some? && w.second.value.HasIds()
  }

  function Two(w: World): Checks
    requires w.first.Some?
  {
    Checks(Some(w.first.value.base.check), Some(w.first.value.candidate.check), None, None, w.runner)
  }

  function Four(w: World): Checks
    requires w.first.Some? && w.second.Some?
  {
    Two(w).(baseConfirm := Some(w.second.value.base.check), candidateConfirm := Some(w.second.value.candidate.check))
  }

  function FourIds(w: World): Ids
    requires w.first.Some? && w.second.Some?
  {
    Ids(w.first.value.base.id, w.first.value.candidate.id, w.second.value.base.id, w.second.value.candidate.id)
  }

  /** The first pair counts and is one experiment, and the revisions recorded steady, different values at some input. */
  ghost predicate FirstDiffers(passed: PassedIn, c: Checks, test: string, planned: int) {
    && planned >= 1 && !c.runner.UnknownRunner? && OneExperiment(passed, c, test, planned)
    && exists b, k ::
         && Counts(passed, c, test, planned, 0, b) && Counts(passed, c, test, planned, 1, k)
         && exists i: nat :: i < planned && Steady(b, k, i) && !SameValue(b, k, i)
  }

  lemma FindDiffers(s: Sides, i: nat)
    requires s.Sound()
    ensures Find(s, i).Split? || Find(s, i).Unconfirmed? || Find(s, i).Unrepeated? <==>
            s.b1.usable && s.c1.usable && Steady(s.b1.stream.value, s.c1.stream.value, i) && !SameValue(s.b1.stream.value, s.c1.stream.value, i)
  {}

  /** A difference of the first pair is what asks for a confirmation. */
  lemma DiffersExact(passed: PassedIn, c: Checks, test: string, planned: int)
    ensures Evaluated(passed, c, test, planned).differs <==> FirstDiffers(passed, c, test, planned)
  {
    hide SidesOf, Counts, Consistent, OneExperiment, Find, Steady, SameValue, Why;
    ExperimentExact(passed, c, test, planned);
    if planned >= 1 && !c.runner.UnknownRunner? && Consistent(c, SidesOf(passed, c, test, planned)) {
      var s := SidesOf(passed, c, test, planned);
      TallyCounts(s, planned);
      SidesCount(passed, c, test, planned);
      forall i: nat
        ensures Find(s, i).Split? || Find(s, i).Unconfirmed? || Find(s, i).Unrepeated? <==>
                s.b1.usable && s.c1.usable && Steady(s.b1.stream.value, s.c1.stream.value, i) && !SameValue(s.b1.stream.value, s.c1.stream.value, i)
      {
        FindDiffers(s, i);
      }
      DiffersAsCounted(passed, c, test, planned);
    }
  }

  lemma DiffersAsCounted(passed: PassedIn, c: Checks, test: string, planned: int)
    ensures var s := SidesOf(passed, c, test, planned);
            (exists b, k ::
               && Counts(passed, c, test, planned, 0, b) && Counts(passed, c, test, planned, 1, k)
               && exists i: nat :: i < planned && Steady(b, k, i) && !SameValue(b, k, i))
            <==> s.b1.usable && s.c1.usable
                 && exists i: nat :: i < planned && Steady(s.b1.stream.value, s.c1.stream.value, i) && !SameValue(s.b1.stream.value, s.c1.stream.value, i)
  {
    hide SidesOf, Counts, Steady, SameValue;
    SidesCount(passed, c, test, planned);
    var s := SidesOf(passed, c, test, planned);
    if s.b1.usable && s.c1.usable {
      assert Counts(passed, c, test, planned, 0, s.b1.stream.value) && Counts(passed, c, test, planned, 1, s.c1.stream.value);
    }
  }

  // ----- the first pair alone -----

  lemma FirstPairCounts(passed: PassedIn, c: Checks, d: Checks, test: string, planned: int, k: nat, fn: FunctionStream)
    requires d == c.(baseConfirm := None, candidateConfirm := None)
    ensures Counts(passed, d, test, planned, k, fn) <==> k < 2 && Counts(passed, c, test, planned, k, fn)
    ensures k < 2 ==> Package(passed, d, test, k) == Package(passed, c, test, k) && CheckAt(d, k) == CheckAt(c, k)
    ensures k >= 2 ==> CheckAt(d, k).None?
  {
    hide Gates.Ran, Gates.Tells;
  }

  /** What is one experiment with its confirmations is one without them. */
  lemma FirstPairExperiment(passed: PassedIn, c: Checks, d: Checks, test: string, planned: int)
    requires d == c.(baseConfirm := None, candidateConfirm := None) && OneExperiment(passed, c, test, planned)
    ensures OneExperiment(passed, d, test, planned)
  {
    hide Counts, Package, SameCallsAt, CheckAt;
    forall k: nat, fn
      ensures Counts(passed, d, test, planned, k, fn) <==> k < 2 && Counts(passed, c, test, planned, k, fn)
      ensures k < 2 ==> Package(passed, d, test, k) == Package(passed, c, test, k) && CheckAt(d, k) == CheckAt(c, k)
      ensures k >= 2 ==> CheckAt(d, k).None?
    {
      FirstPairCounts(passed, c, d, test, planned, k, fn);
    }
    ChecksOfFirstPair(c, d);
  }

  lemma ChecksOfFirstPair(c: Checks, d: Checks)
    requires d == c.(baseConfirm := None, candidateConfirm := None)
    ensures forall k: nat :: CheckAt(d, k).Some? ==> CheckAt(d, k) == CheckAt(c, k)
  {}

  /** A reproduced difference is one of the first pair. */
  lemma SeparatesDiffers(passed: PassedIn, c: Checks, d: Checks, test: string, planned: int)
    requires d == c.(baseConfirm := None, candidateConfirm := None) && Separates(passed, c, test, planned)
    ensures FirstDiffers(passed, d, test, planned)
  {
    hide Counts, OneExperiment, RecordedAgain, Steady, SameValue;
    FirstPairExperiment(passed, c, d, test, planned);
    var b, k, b2, k2 :|
      && Counts(passed, c, test, planned, 0, b) && Counts(passed, c, test, planned, 1, k)
      && Counts(passed, c, test, planned, 2, b2) && Counts(passed, c, test, planned, 3, k2)
      && exists j: nat :: j < planned && Reproduces(b, k, b2, k2, j);
    FirstPairCounts(passed, c, d, test, planned, 0, b);
    FirstPairCounts(passed, c, d, test, planned, 1, k);
    var i: nat :| i < planned && Reproduces(b, k, b2, k2, i);
    assert Steady(b, k, i) && !SameValue(b, k, i);
  }

  lemma AgreesWithout(passed: PassedIn, c: Checks, d: Checks, test: string, planned: int)
    requires d == c.(baseConfirm := None, candidateConfirm := None) && AgreesThroughout(passed, c, test, planned)
    ensures AgreesThroughout(passed, d, test, planned)
  {
    hide Counts, OneExperiment, NeverSeparates, Steady, SameValue;
    FirstPairExperiment(passed, c, d, test, planned);
    var b, k :|
      && Counts(passed, c, test, planned, 0, b) && Counts(passed, c, test, planned, 1, k)
      && b.state.Complete? && k.state.Complete?
      && (forall i: nat :: i < planned ==> NeverSeparates(b, k, i))
      && exists i: nat :: i < planned && Steady(b, k, i) && SameValue(b, k, i);
    FirstPairCounts(passed, c, d, test, planned, 0, b);
    FirstPairCounts(passed, c, d, test, planned, 1, k);
  }

  // ----- the place of a function in the report -----

  function Place(packages: seq<Plan.Package>, q: nat, k: nat): nat
    requires q < |packages|
  {
    |Plan.TargetsOf(packages[..q])| + k
  }

  lemma {:induction false} ReportAt(passed: PassedIn, packages: seq<Plan.Package>, worlds: seq<World>, deadline: int, q: nat, k: nat)
    requires AllFit(packages, worlds) && q < |packages| && k < |packages[q].targets|
    ensures Fits(packages[q], worlds[q])
    ensures Place(packages, q, k) < |AllReports(passed, packages, worlds, deadline)|
    ensures AllReports(passed, packages, worlds, deadline)[Place(packages, q, k)] == Reports(passed, packages[q], worlds[q], deadline)[k]
    decreases |packages|
  {
    hide Reports, Fits, Plan.TargetsOf;
    var last := |packages| - 1;
    var before := AllReports(passed, packages[..last], worlds[..last], deadline);
    StageSound(passed, packages[..last], worlds[..last], deadline);
    assert |before| == |Targets(before)|;
    if q < last {
      assert packages[..last][..q] == packages[..q] && packages[..last][q] == packages[q] && worlds[..last][q] == worlds[q];
      ReportAt(passed, packages[..last], worlds[..last], deadline, q, k);
    }
  }

  // ----- what is reported -----

  /** Whether a confirmation was asked for and recorded. */
  ghost predicate Confirmed(passed: PassedIn, w: World, deadline: int) {
    && RanFirst(w, deadline) && CanConfirm(w, deadline)
    && exists j :: 0 <= j < |w.rendered.value| && FirstDiffers(passed, Two(w), w.rendered.value[j].name, w.rendered.value[j].inputs)
  }

  /** The checks the outcome is derived from. */
  ghost function Used(passed: PassedIn, w: World, deadline: int): Checks
    requires RanFirst(w, deadline)
  {
    if Confirmed(passed, w, deadline) then Four(w) else Two(w)
  }

  lemma ConfirmsExact(passed: PassedIn, w: World, deadline: int)
    requires RanFirst(w, deadline)
    ensures Stage.Confirms(passed, w.rendered.value, w, deadline) && Usable(w.second).Some? <==> Confirmed(passed, w, deadline)
    ensures Usable(w.second).Some? ==> Usable(w.second) == w.second
  {
    hide Evaluated, FirstDiffers;
    var tests := w.rendered.value;
    assert ChecksOf(w.runner, w.first.value, None) == Two(w);
    forall j | 0 <= j < |tests|
      ensures Evaluated(passed, Two(w), tests[j].name, tests[j].inputs).differs <==> FirstDiffers(passed, Two(w), tests[j].name, tests[j].inputs)
    {
      DiffersExact(passed, Two(w), tests[j].name, tests[j].inputs);
    }
  }

  /** The report of a function whose package ran, as the evaluation of the checks used. */
  predicate SaysAs(f: Function, ev: Evaluation, stored: Option<string>) {
    && f.evidence == stored
    && f.outcome == (if stored.Some? then ev.outcome else Inconclusive)
    && f.counterexample == (if stored.Some? then ev.counterexample else None)
    && f.inputs == ev.inputs && f.compared == ev.compared && f.diverged == ev.diverged && f.unstable == ev.unstable
    && f.unconfirmed == ev.unconfirmed && f.notRecorded == ev.notRecorded
    && (stored.None? ==> f.why.NotStored?)
    && (stored.Some? && f.digest == "" ==> f.why == Said(ev.reason))
    && (stored.Some? && f.digest != "" ==> f.why.Overflowed?)
    && (f.digest != "" ==> ev.outcome.Inconclusive?)
  }

  lemma RanReport(passed: PassedIn, p: Plan.Package, w: World, deadline: int, k: nat)
    requires Fits(p, w) && RanFirst(w, deadline) && k < |p.targets|
    ensures var f, t := Reports(passed, p, w, deadline)[k], w.rendered.value[k];
            && f.target == p.targets[k] && f.test == t.name
            && SaysAs(f, Evaluated(passed, Used(passed, w, deadline), t.name, t.inputs), w.store(t.name))
            && f.checks == Some(if Confirmed(passed, w, deadline) then FourIds(w)
                                else Ids(w.first.value.base.id, w.first.value.candidate.id, "", ""))
  {
    hide Evaluated, Stage.Confirms, Confirmed, Overflow, Usable;
    ConfirmsExact(passed, w, deadline);
    UsableIds(w.second);
  }

  /** The overflow digests of the streams an evaluation needed: of the confirmation only while some input is unconfirmed. */
  ghost function Needed(passed: PassedIn, w: World, deadline: int, ev: Evaluation): seq<string>
    requires RanFirst(w, deadline)
  {
    [w.first.value.base.overflow, w.first.value.candidate.overflow]
    + if Confirmed(passed, w, deadline) && ev.unconfirmed > 0 then [w.second.value.base.overflow, w.second.value.candidate.overflow] else []
  }

  /** The first digest of some, or none. */
  predicate IsFirst(digest: string, of: seq<string>) {
    if digest == "" then forall i :: 0 <= i < |of| ==> of[i] == ""
    else exists i :: 0 <= i < |of| && of[i] == digest && forall j :: 0 <= j < i ==> of[j] == ""
  }

  /** An inconclusive report names the first needed stream that did not fit; any other names none. */
  lemma DigestExact(passed: PassedIn, p: Plan.Package, w: World, deadline: int, k: nat)
    requires Fits(p, w) && RanFirst(w, deadline) && k < |p.targets|
    ensures var f, t := Reports(passed, p, w, deadline)[k], w.rendered.value[k];
            var ev := Evaluated(passed, Used(passed, w, deadline), t.name, t.inputs);
            if ev.outcome.Inconclusive? then IsFirst(f.digest, Needed(passed, w, deadline, ev)) else f.digest == ""
  {
    hide Evaluated, Stage.Confirms, Confirmed, Usable, IsFirst;
    ConfirmsExact(passed, w, deadline);
    UsableIds(w.second);
    var t := w.rendered.value[k];
    var ev := Evaluated(passed, Used(passed, w, deadline), t.name, t.inputs);
    OverflowIsFirst(ev, w.first.value, if Confirmed(passed, w, deadline) then w.second else None);
  }

  lemma OverflowIsFirst(ev: Evaluation, first: Pair, second: Option<Pair>)
    ensures var more := if second.Some? && ev.unconfirmed > 0 then [second.value.base.overflow, second.value.candidate.overflow] else [];
            IsFirst(Overflow(ev, first, second), [first.base.overflow, first.candidate.overflow] + more)
  {
    var more := if second.Some? && ev.unconfirmed > 0 then [second.value.base.overflow, second.value.candidate.overflow] else [];
    var of := [first.base.overflow, first.candidate.overflow] + more;
    assert of[0] == first.base.overflow && of[1] == first.candidate.overflow;
    assert more != [] ==> of[2] == second.value.base.overflow && of[3] == second.value.candidate.overflow;
  }

  lemma UsableIds(second: Option<Pair>)
    ensures Usable(second).Some? ==> Usable(second) == second && second.value.HasIds()
  {}

  /** A function of a package that did not run. */
  lemma UnrunReport(passed: PassedIn, p: Plan.Package, w: World, deadline: int, k: nat)
    requires Fits(p, w) && !RanFirst(w, deadline) && k < |p.targets|
    ensures var f := Reports(passed, p, w, deadline)[k];
            && f.target == p.targets[k] && f.outcome.Inconclusive? && f.checks.None? && f.evidence.None? && f.counterexample.None?
            && f.compared == f.diverged == f.unstable == f.unconfirmed == 0 && f.notRecorded == f.inputs
            && f.why == (if w.cancelled || w.now >= deadline then OutOfTime else if w.rendered.None? then NotRendered else NotRunnable)
            && f.inputs == (if f.why.NotRunnable? then w.rendered.value[k].inputs else p.inputs[k])
  {}

  /**
   What is reported of function k of package q, from both sides. DIVERGED exactly when both pairs were
   recorded in time, the evidence record was stored, and the four checks separate the revisions;
   its checks are those four. NOT_DIVERGED exactly when the first pair was recorded, the evidence
   was stored, and the checks used agree throughout.
   */
  lemma ReportedExact(passed: PassedIn, packages: seq<Plan.Package>, worlds: seq<World>, deadline: int, q: nat, k: nat)
    requires AllFit(packages, worlds) && q < |packages| && k < |packages[q].targets|
    ensures Fits(packages[q], worlds[q]) && Place(packages, q, k) < |AllReports(passed, packages, worlds, deadline)|
    ensures var f, w := AllReports(passed, packages, worlds, deadline)[Place(packages, q, k)], worlds[q];
            && f.target == packages[q].targets[k]
            && (f.outcome.Diverged? <==>
                  && RanFirst(w, deadline) && CanConfirm(w, deadline) && w.store(w.rendered.value[k].name).Some?
                  && Separates(passed, Four(w), w.rendered.value[k].name, w.rendered.value[k].inputs))
            && (f.outcome.Diverged? ==>
                  && f.checks == Some(FourIds(w)) && f.evidence == w.store(w.rendered.value[k].name)
                  && f.counterexample.Some?
                  && f.counterexample == Evaluated(passed, Four(w), w.rendered.value[k].name, w.rendered.value[k].inputs).counterexample)
            && (f.outcome.NotDiverged? <==>
                  && RanFirst(w, deadline) && w.store(w.rendered.value[k].name).Some?
                  && AgreesThroughout(passed, Used(passed, w, deadline), w.rendered.value[k].name, w.rendered.value[k].inputs))
  {
    hide AllReports, Reports, Evaluated, Separates, AgreesThroughout, FirstDiffers, Plan.TargetsOf;
    ReportAt(passed, packages, worlds, deadline, q, k);
    var w := worlds[q];
    if !RanFirst(w, deadline) {
      UnrunReport(passed, packages[q], w, deadline, k);
    } else {
      RanReport(passed, packages[q], w, deadline, k);
      UsedDecides(passed, w, deadline, k);
    }
  }

  /** The outcome of the checks used: a divergence takes the confirmation, and brings it about. */
  lemma UsedDecides(passed: PassedIn, w: World, deadline: int, k: nat)
    requires RanFirst(w, deadline) && k < |w.rendered.value|
    ensures var t, used := w.rendered.value[k], Used(passed, w, deadline);
            && (Evaluated(passed, used, t.name, t.inputs).outcome.Diverged? <==>
                  CanConfirm(w, deadline) && Separates(passed, Four(w), t.name, t.inputs))
            && (Evaluated(passed, used, t.name, t.inputs).outcome.Diverged? ==> Confirmed(passed, w, deadline))
            && (Evaluated(passed, used, t.name, t.inputs).outcome.Diverged? ==> Evaluated(passed, used, t.name, t.inputs).counterexample.Some?)
            && (Evaluated(passed, used, t.name, t.inputs).outcome.NotDiverged? <==> AgreesThroughout(passed, used, t.name, t.inputs))
  {
    hide Evaluated, Separates, AgreesThroughout, FirstDiffers;
    var t, used := w.rendered.value[k], Used(passed, w, deadline);
    DivergedExact(passed, used, t.name, t.inputs);
    NotDivergedExact(passed, used, t.name, t.inputs);
    DivergedCounts(passed, used, t.name, t.inputs);
    if CanConfirm(w, deadline) && Separates(passed, Four(w), t.name, t.inputs) {
      SeparatesDiffers(passed, Four(w), Two(w), t.name, t.inputs);
    }
    if !Confirmed(passed, w, deadline) {
      TwoNeverSeparate(passed, w, t.name, t.inputs);
    }
  }

  lemma TwoNeverSeparate(passed: PassedIn, w: World, test: string, planned: int)
    requires w.first.Some?
    ensures !Separates(passed, Two(w), test, planned)
  {
    hide OneExperiment, Reproduces, Gates.Ran, Gates.Tells;
  }

  /**
   From deterministic code to its report: when all four processes run to completion in time, leave clean
   checks and the evidence is stored, the function is reported as DIVERGED exactly when the
   recorded hash or length of some input differs between the revisions, and as NOT_DIVERGED
   exactly when none does.
   */
  lemma ReportedComplete(passed: PassedIn, packages: seq<Plan.Package>, worlds: seq<World>, deadline: int, q: nat, k: nat,
                         command: seq<string>, pkg: string, h: Harness, red: Redaction, hash: string -> string, l: Launches, f: int)
    requires AllFit(packages, worlds) && q < |packages| && k < |packages[q].targets|
    requires RanFirst(worlds[q], deadline) && CanConfirm(worlds[q], deadline)
    requires Fits(packages[q], worlds[q]) && worlds[q].store(worlds[q].rendered.value[k].name).Some?
    requires Proper(h) && Hashes(hash) && red.KeepsUtf8() && l.Fits(h) && h.Has(f)
    requires worlds[q].rendered.value[k] == Stage.Test.Test(h.Name(f), h.Planned(f))
    requires SameCode(h, l.b1, l.b2) && SameCode(h, l.c1, l.c2)
    requires AllClean(passed, Four(worlds[q]), command, pkg, h, red, hash, l, f)
    ensures Place(packages, q, k) < |AllReports(passed, packages, worlds, deadline)|
    ensures var r := AllReports(passed, packages, worlds, deadline)[Place(packages, q, k)];
            && (r.outcome.Diverged? <==> exists i: nat :: i < h.Planned(f) && !Matches(h, hash, l, f, i))
            && (r.outcome.NotDiverged? <==> forall i: nat :: i < h.Planned(f) ==> Matches(h, hash, l, f, i))
  {
    hide AllReports, Evaluated, Separates, AgreesThroughout, FirstDiffers, AllClean, SameCode, Matches, Plan.TargetsOf, Proper, Launches.Fits;
    var w := worlds[q];
    ReportedExact(passed, packages, worlds, deadline, q, k);
    Completeness(passed, Four(w), command, pkg, h, red, hash, l, f);
    DivergedExact(passed, Four(w), h.Name(f), h.Planned(f));
    NotDivergedExact(passed, Four(w), h.Name(f), h.Planned(f));
    if AgreesThroughout(passed, Four(w), h.Name(f), h.Planned(f)) {
      AgreesWithout(passed, Four(w), Two(w), h.Name(f), h.Planned(f));
    }
  }

  /** A confirmation pair is asked for exactly when the first pair of some function differs in time. */
  lemma AskedExact(passed: PassedIn, p: Plan.Package, w: World, deadline: int)
    requires Fits(p, w)
    ensures Confirmation in Asked(passed, p, w, deadline) <==>
            && RanFirst(w, deadline) && !w.cancelledThen && w.nowThen < deadline
            && exists j :: 0 <= j < |w.rendered.value| && FirstDiffers(passed, Two(w), w.rendered.value[j].name, w.rendered.value[j].inputs)
    ensures FirstPair in Asked(passed, p, w, deadline) <==> !w.cancelled && w.now < deadline && w.rendered.Some?
    ensures |Asked(passed, p, w, deadline)| <= 2
  {
    hide Evaluated, FirstDiffers;
    if w.first.Some? && w.rendered.Some? {
      var tests := w.rendered.value;
      assert ChecksOf(w.runner, w.first.value, None) == Two(w);
      forall j | 0 <= j < |tests|
        ensures Evaluated(passed, Two(w), tests[j].name, tests[j].inputs).differs <==> FirstDiffers(passed, Two(w), tests[j].name, tests[j].inputs)
      {
        DiffersExact(passed, Two(w), tests[j].name, tests[j].inputs);
      }
    }
  }

  // ----- the status and the skips -----

  /** The stage ran when something was planned; otherwise its reason says whether only the template stood in the way. */
  lemma StatusExact(packages: seq<Plan.Package>, skips: seq<Skip>, templates: set<string>)
    ensures var s := StatusOf(packages, skips, templates);
            && (s.Ran? <==> exists p :: p in packages && p.targets != [])
            && (s.NothingRunnable? <==> (forall p :: p in packages ==> p.targets == []) && exists x :: x in skips && x.reason in templates)
  {
    NoTargets(packages);
    if x :| x in skips && x.reason in templates {
      var k :| 0 <= k < |skips| && skips[k] == x;
      assert skips[k].reason in templates;
    }
  }

  lemma {:induction false} NoTargets(packages: seq<Plan.Package>)
    ensures Plan.TargetsOf(packages) == [] <==> forall p :: p in packages ==> p.targets == []
  {
    if packages != [] {
      var n := |packages| - 1;
      NoTargets(packages[..n]);
      assert packages == packages[..n] + [packages[n]];
    }
  }

  /** Of two skips the one with the lesser path comes first, or at one path the one with the lesser line. */
  predicate After(x: Skip, y: Skip) {
    Text.Before(y.path, x.path) || (x.path == y.path && y.line < x.line)
  }

  /** The listed skips are the first 200 by place, and none that is left out comes before one that is listed. */
  lemma {:induction false} SkipsListed(shown: seq<Skip>, skips: seq<Skip>)
    requires Lists(shown, skips)
    ensures |shown| == if |skips| <= 200 then |skips| else 200
    ensures multiset(shown) <= multiset(skips)
    ensures forall i, j :: 0 <= i < j < |shown| ==> !After(shown[i], shown[j])
    ensures forall x, y :: x in shown && y in multiset(skips) - multiset(shown) ==> !After(x, y)
  {
    hide Ordering.Stable, Ordering.Sorted, After, Sooner;
    var all :|
      && multiset(all) == multiset(skips) && Ordering.Sorted(all, Sooner) && Ordering.Stable(all, skips, Sooner)
      && shown == if |all| > MAX_SKIPPED then all[..MAX_SKIPPED] else all;
    assert |multiset(all)| == |multiset(skips)|;
    var n := |shown|;
    assert all == all[..n] + all[n..] && all[..n] == shown;
    InOrder(all, n);
  }

  /** A sorted list is in order, and so are its first elements with its last ones. */
  lemma {:induction false} InOrder(all: seq<Skip>, n: nat)
    requires n <= |all| && Ordering.Sorted(all, Sooner)
    ensures forall i, j :: 0 <= i < j < |all[..n]| ==> !After(all[..n][i], all[..n][j])
    ensures forall x, y :: x in all[..n] && y in all[n..] ==> !After(x, y)
  {
    hide After, Sooner;
    forall i, j | 0 <= i < j < |all|
      ensures !After(all[i], all[j])
    {
      AfterIs(all[i], all[j]);
    }
    forall x, y | x in all[..n] && y in all[n..]
      ensures !After(x, y)
    {
      var i :| 0 <= i < n && all[i] == x;
      var j :| n <= j < |all| && all[j] == y;
    }
  }

  lemma AfterIs(x: Skip, y: Skip)
    ensures After(x, y) <==> Sooner(y, x)
  {
    Text.BeforeIsTotal(x.path, y.path);
  }
}

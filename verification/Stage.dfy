/** The stage, package by package. */
module Stage {
  import opened Json
  import opened Compare
  import opened Evaluator
  import Ordering
  import Plan
  import Text

  /** One recorded run: the check with its ID, and the digest of a stream kept only as an artifact. */
  datatype Recorded = Recorded(id: string, check: Check, overflow: string)

  datatype Pair = Pair(base: Recorded, candidate: Recorded) {
    predicate HasIds() {
      base.id != "" && candidate.id != ""
    }
  }

  /** A test of a rendered harness: its name, and its inputs after any halving. */
  datatype Test = Test(name: string, inputs: nat)

  /**
   What the world does to one package: the runner of its harness, the context and the clock before it,
   the harness rendered, its two pairs of runs, the context and the clock between them, and the evidence store.
   */
  datatype World = World(runner: EvidenceRunner, cancelled: bool, now: int, rendered: Option<seq<Test>>, first: Option<Pair>,
                         cancelledThen: bool, nowThen: int, second: Option<Pair>, store: string -> Option<string>)

  datatype Ids = Ids(base: string, candidate: string, baseConfirm: string, candidateConfirm: string) {
    predicate AllFour() {
      base != "" && candidate != "" && baseConfirm != "" && candidateConfirm != ""
    }
  }

  datatype Cause = OutOfTime | NotRendered | NotRunnable | Said(reason: Compare.Reason) | Overflowed | NotStored

  datatype Function = Function(target: Plan.Target, test: string, outcome: Verdict, why: Cause, checks: Option<Ids>, evidence: Option<string>,
                               digest: string, inputs: nat, compared: nat, diverged: nat, unstable: nat, unconfirmed: nat, notRecorded: nat,
                               counterexample: Option<Counterexample>)
  {
    predicate Balanced() {
      inputs == compared + unstable + unconfirmed + notRecorded && diverged <= compared
    }
  }

  /** notRun. */
  function NotRun(t: Plan.Target, test: string, inputs: nat, why: Cause): Function {
    Function(t, test, Inconclusive, why, None, None, "", inputs, 0, 0, 0, 0, inputs, None)
  }

  /** The second pair as it is used: only one whose checks were both recorded. */
  function Usable(second: Option<Pair>): Option<Pair> {
    match second case Some(p) => if p.HasIds() then second else None case None => None
  }

  function ChecksOf(runner: EvidenceRunner, first: Pair, second: Option<Pair>): Checks {
    match second
    case None => Checks(Some(first.base.check), Some(first.candidate.check), None, None, runner)
    case Some(p) => Checks(Some(first.base.check), Some(first.candidate.check), Some(p.base.check), Some(p.candidate.check), runner)
  }

  function IdsOf(first: Pair, second: Option<Pair>): Ids {
    match second
    case None => Ids(first.base.id, first.candidate.id, "", "")
    case Some(p) => Ids(first.base.id, first.candidate.id, p.base.id, p.candidate.id)
  }

  /** overflow: the digest of a stream that the evaluation needed and that did not fit. */
  function Overflow(ev: Evaluation, first: Pair, second: Option<Pair>): string {
    if first.base.overflow != "" then first.base.overflow
    else if first.candidate.overflow != "" then first.candidate.overflow
    else if ev.unconfirmed > 0 && second.Some? then
      (if second.value.base.overflow != "" then second.value.base.overflow else second.value.candidate.overflow)
    else ""
  }

  function ReportOf(passed: PassedIn, runner: EvidenceRunner, t: Plan.Target, test: string, inputs: nat, first: Pair, second: Option<Pair>,
                    stored: Option<string>): Function
  {
    var ev := Evaluated(passed, ChecksOf(runner, first, second), test, inputs);
    var digest := if ev.outcome.Inconclusive? then Overflow(ev, first, second) else "";
    var why := if stored.None? then NotStored else if digest != "" then Overflowed else Said(ev.reason);
    Function(t, test, if stored.None? then Inconclusive else ev.outcome, why, Some(IdsOf(first, second)), stored, digest,
             ev.inputs, ev.compared, ev.diverged, ev.unstable, ev.unconfirmed, ev.notRecorded,
             if stored.None? then None else ev.counterexample)
  }

  /** A divergence takes a record of the confirmation pair. */
  lemma DivergedIsConfirmed(passed: PassedIn, c: Checks, test: string, planned: int)
    requires Evaluated(passed, c, test, planned).outcome.Diverged?
    ensures c.base.Some? && c.candidate.Some? && c.baseConfirm.Some? && c.candidateConfirm.Some?
  {
    hide ViewOf, Consistent, Why;
    var s := SidesOf(passed, c, test, planned);
    var n: nat := planned;
    TallyBalances(s, n);
    TallyDivergent(s, n);
    assert TallyOf(s, n).divergent[0] in TallyOf(s, n).divergent;
    var i: nat :| i < n && Find(s, i).Split?;
    SplitHasFour(passed, c, test, planned, i);
  }

  lemma SplitHasFour(passed: PassedIn, c: Checks, test: string, planned: int, i: nat)
    requires Find(SidesOf(passed, c, test, planned), i).Split?
    ensures c.base.Some? && c.candidate.Some? && c.baseConfirm.Some? && c.candidateConfirm.Some?
  {
    hide GoView, ScriptView;
  }

  /**
   A function reported as diverged has all four checks and a stored evidence record, and it is the
   comparison rule that says so; what was counted is every planned input, once.
   */
  lemma DivergedHasEverything(passed: PassedIn, runner: EvidenceRunner, t: Plan.Target, test: string, inputs: nat, first: Pair, second: Option<Pair>,
                              stored: Option<string>)
    requires first.HasIds() && (second.Some? ==> second.value.HasIds())
    ensures var f := ReportOf(passed, runner, t, test, inputs, first, second, stored);
            && f.Balanced()
            && (f.outcome.Diverged? ==>
                  second.Some? && f.checks.Some? && f.checks.value.AllFour() && f.evidence == stored && stored.Some?
                  && Evaluated(passed, ChecksOf(runner, first, second), test, inputs).outcome.Diverged?)
  {
    hide Evaluated;
    var c := ChecksOf(runner, first, second);
    Accounting(passed, c, test, inputs);
    if Evaluated(passed, c, test, inputs).outcome.Diverged? {
      DivergedIsConfirmed(passed, c, test, inputs);
    }
  }

  /** Some function of the harness differs in the first pair. */
  predicate Differs(passed: PassedIn, runner: EvidenceRunner, tests: seq<Test>, first: Pair) {
    exists i :: 0 <= i < |tests| && Evaluated(passed, ChecksOf(runner, first, None), tests[i].name, tests[i].inputs).differs
  }

  /** A confirmation pair is asked for exactly when a difference appeared in time. */
  predicate Confirms(passed: PassedIn, tests: seq<Test>, w: World, deadline: int) {
    w.first.Some? && w.first.value.HasIds() && Differs(passed, w.runner, tests, w.first.value) && !w.cancelledThen && w.nowThen < deadline
  }

  datatype Run = FirstPair | Confirmation

  /** The report of the k-th function of a package that was rendered. */
  function FunctionAt(passed: PassedIn, p: Plan.Package, tests: seq<Test>, w: World, deadline: int, k: nat): Function
    requires |tests| == |p.targets| && k < |tests|
  {
    if w.first.None? || !w.first.value.HasIds() then NotRun(p.targets[k], tests[k].name, tests[k].inputs, NotRunnable)
    else
      var second := if Confirms(passed, tests, w, deadline) then Usable(w.second) else None;
      ReportOf(passed, w.runner, p.targets[k], tests[k].name, tests[k].inputs, w.first.value, second, w.store(tests[k].name))
  }

  method AnyDiffers(passed: PassedIn, runner: EvidenceRunner, tests: seq<Test>, first: Pair) returns (differs: bool)
    ensures differs == Differs(passed, runner, tests, first)
  {
    hide Evaluated;
    differs := false;
    for i := 0 to |tests|
      invariant differs <==> exists k :: 0 <= k < i && Evaluated(passed, ChecksOf(runner, first, None), tests[k].name, tests[k].inputs).differs
    {
      var ev := Evaluate(passed, ChecksOf(runner, first, None), tests[i].name, tests[i].inputs);
      if ev.differs {
        differs := true;
      }
    }
  }

  /** runPackage. */
  method RunPackage(passed: PassedIn, p: Plan.Package, tests: seq<Test>, w: World, deadline: int)
    returns (out: seq<Function>, asked: seq<Run>)
    requires |tests| == |p.targets|
    ensures |out| == |p.targets| && forall k :: 0 <= k < |out| ==> out[k] == FunctionAt(passed, p, tests, w, deadline, k)
    ensures asked == if Confirms(passed, tests, w, deadline) then [FirstPair, Confirmation] else [FirstPair]
  {
    hide Evaluated, Differs, ReportOf;
    asked := [FirstPair];
    out := [];
    if w.first.None? || w.first.value.base.id == "" || w.first.value.candidate.id == "" {
      for k := 0 to |tests|
        invariant |out| == k && forall j :: 0 <= j < k ==> out[j] == NotRun(p.targets[j], tests[j].name, tests[j].inputs, NotRunnable)
      {
        out := out + [NotRun(p.targets[k], tests[k].name, tests[k].inputs, NotRunnable)];
      }
      return;
    }
    var first := w.first.value;
    var second: Option<Pair> := None;
    var differs := AnyDiffers(passed, w.runner, tests, first);
    if differs && !w.cancelledThen && w.nowThen < deadline {
      asked := asked + [Confirmation];
      if w.second.Some? && w.second.value.base.id != "" && w.second.value.candidate.id != "" {
        second := w.second;
      }
    }
    for k := 0 to |tests|
      invariant |out| == k
      invariant forall j :: 0 <= j < k ==>
                  out[j] == ReportOf(passed, w.runner, p.targets[j], tests[j].name, tests[j].inputs, first, second, w.store(tests[j].name))
    {
      var f := Report(passed, w.runner, p.targets[k], tests[k].name, tests[k].inputs, first, second, w.store(tests[k].name));
      out := out + [f];
    }
  }

  /** The report of one function of a package that ran. */
  method Report(passed: PassedIn, runner: EvidenceRunner, t: Plan.Target, test: string, inputs: nat, first: Pair, second: Option<Pair>,
                stored: Option<string>)
    returns (f: Function)
    ensures f == ReportOf(passed, runner, t, test, inputs, first, second, stored)
  {
    hide Evaluated;
    var ev := Evaluate(passed, ChecksOf(runner, first, second), test, inputs);
    var why, digest := Said(ev.reason), "";
    if ev.outcome.Inconclusive? {
      digest := Overflow(ev, first, second);
      if digest != "" {
        why := Overflowed;
      }
    }
    f := Function(t, test, ev.outcome, why, Some(IdsOf(first, second)), stored, digest, ev.inputs, ev.compared, ev.diverged, ev.unstable,
                  ev.unconfirmed, ev.notRecorded, ev.counterexample);
    if stored.None? {
      f := f.(outcome := Inconclusive, why := NotStored, counterexample := None);
    }
  }

  // ----- the whole stage -----

  predicate Fits(p: Plan.Package, w: World) {
    |p.inputs| == |p.targets| && (w.rendered.Some? ==> |w.rendered.value| == |p.targets|)
  }

  /** The runs a package asks for. */
  function Asked(passed: PassedIn, p: Plan.Package, w: World, deadline: int): seq<Run>
    requires Fits(p, w)
  {
    if w.cancelled || w.now >= deadline || w.rendered.None? then []
    else if Confirms(passed, w.rendered.value, w, deadline) then [FirstPair, Confirmation]
    else [FirstPair]
  }

  /** The reports of one package. */
  function Reports(passed: PassedIn, p: Plan.Package, w: World, deadline: int): (fs: seq<Function>)
    requires Fits(p, w)
    ensures |fs| == |p.targets|
  {
    if w.cancelled || w.now >= deadline then
      seq(|p.targets|, k requires 0 <= k < |p.targets| => NotRun(p.targets[k], "", p.inputs[k], OutOfTime))
    else if w.rendered.None? then
      seq(|p.targets|, k requires 0 <= k < |p.targets| => NotRun(p.targets[k], "", p.inputs[k], NotRendered))
    else
      seq(|p.targets|, k requires 0 <= k < |p.targets| => FunctionAt(passed, p, w.rendered.value, w, deadline, k))
  }

  predicate AllFit(packages: seq<Plan.Package>, worlds: seq<World>) {
    |worlds| == |packages| && forall k :: 0 <= k < |packages| ==> Fits(packages[k], worlds[k])
  }

  function AllReports(passed: PassedIn, packages: seq<Plan.Package>, worlds: seq<World>, deadline: int): seq<Function>
    requires AllFit(packages, worlds)
  {
    if packages == [] then []
    else
      var last := |packages| - 1;
      AllReports(passed, packages[..last], worlds[..last], deadline) + Reports(passed, packages[last], worlds[last], deadline)
  }

  function Targets(fs: seq<Function>): seq<Plan.Target> {
    seq(|fs|, k requires 0 <= k < |fs| => fs[k].target)
  }

  /** What holds of every function reported, whatever the runner, the rendering and the clock do. */
  predicate Sound(f: Function) {
    && f.Balanced()
    && (f.outcome.Diverged? ==> f.checks.Some? && f.checks.value.AllFour() && f.evidence.Some? && f.diverged >= 1)
    && (f.counterexample.Some? <==> f.outcome.Diverged?)
  }

  lemma FunctionSound(passed: PassedIn, p: Plan.Package, tests: seq<Test>, w: World, deadline: int, k: nat)
    requires |tests| == |p.targets| && k < |tests|
    ensures Sound(FunctionAt(passed, p, tests, w, deadline, k))
    ensures FunctionAt(passed, p, tests, w, deadline, k).target == p.targets[k]
  {
    hide Evaluated, Differs;
    if w.first.Some? && w.first.value.HasIds() {
      var second := if Confirms(passed, tests, w, deadline) then Usable(w.second) else None;
      DivergedHasEverything(passed, w.runner, p.targets[k], tests[k].name, tests[k].inputs, w.first.value, second, w.store(tests[k].name));
      DivergedCounts(passed, ChecksOf(w.runner, w.first.value, second), tests[k].name, tests[k].inputs);
    }
  }

  lemma DivergedCounts(passed: PassedIn, c: Checks, test: string, planned: int)
    ensures var ev := Evaluated(passed, c, test, planned);
            (ev.outcome.Diverged? ==> ev.diverged >= 1) && (ev.counterexample.Some? <==> ev.outcome.Diverged?)
  {
    hide SidesOf, Consistent, TallyOf, Why;
    if planned >= 1 {
      TallyBalances(SidesOf(passed, c, test, planned), planned);
    }
  }

  predicate AllSound(fs: seq<Function>) {
    forall f :: f in fs ==> Sound(f)
  }

  lemma ReportsSound(passed: PassedIn, p: Plan.Package, w: World, deadline: int)
    requires Fits(p, w)
    ensures AllSound(Reports(passed, p, w, deadline)) && Targets(Reports(passed, p, w, deadline)) == p.targets
  {
    hide FunctionAt;
    var fs := Reports(passed, p, w, deadline);
    forall k | 0 <= k < |fs|
      ensures Sound(fs[k]) && fs[k].target == p.targets[k]
    {
      if !w.cancelled && w.now < deadline && w.rendered.Some? {
        FunctionSound(passed, p, w.rendered.value, w, deadline, k);
      }
    }
  }

  lemma TargetsJoin(a: seq<Function>, b: seq<Function>)
    ensures Targets(a + b) == Targets(a) + Targets(b)
    ensures AllSound(a) && AllSound(b) ==> AllSound(a + b)
  {
    hide Sound;
  }

  /**
   Every planned target is reported exactly once, in plan order, and every report is balanced; a
   divergence has four recorded checks and a stored evidence record.
   */
  lemma {:induction false} StageSound(passed: PassedIn, packages: seq<Plan.Package>, worlds: seq<World>, deadline: int)
    requires AllFit(packages, worlds)
    ensures Targets(AllReports(passed, packages, worlds, deadline)) == Plan.TargetsOf(packages)
    ensures AllSound(AllReports(passed, packages, worlds, deadline))
    decreases |packages|
  {
    hide Reports, AllSound, Fits;
    if packages == [] {
      NoneSound();
    } else {
      var last := |packages| - 1;
      StageSound(passed, packages[..last], worlds[..last], deadline);
      ReportsSound(passed, packages[last], worlds[last], deadline);
      TargetsJoin(AllReports(passed, packages[..last], worlds[..last], deadline),
                  Reports(passed, packages[last], worlds[last], deadline));
    }
  }

  /**
   From selection to report: every eligible target is reported exactly once or skipped by the budget
   exactly once, but for those of a script package that cannot be planned.
   */
  lemma SelectionToReport(passed: PassedIn, sorted: seq<Plan.Target>, l: Plan.Limits, corpus: (Plan.Target, nat) -> nat,
                          sources: Plan.Sources, worlds: seq<World>, deadline: int)
    requires AllFit(Plan.Planned(sorted, l, corpus, sources).packages, worlds)
    ensures var p := Plan.Planned(sorted, l, corpus, sources);
            var reported, refused := Targets(AllReports(passed, p.packages, worlds, deadline)),
                                     Plan.Refused(Plan.Dirs(sorted), Plan.Taken(sorted, Plan.Chosen(sorted, l), l), sources);
            && multiset(sorted) == multiset(reported) + multiset(Plan.Skipped(p.skipped)) + multiset(refused)
            && |reported| <= l.functions
            && ((forall t :: t in sorted && t.language.Script? ==> sources.Plannable(t.dir)) ==> refused == [])
  {
    hide AllReports, Targets, Plan.Planned, Plan.TargetsOf, Plan.Refused, Plan.IsRefused, Plan.Whole;
    Plan.PlannedConserves(sorted, l, corpus, sources);
    StageSound(passed, Plan.Planned(sorted, l, corpus, sources).packages, worlds, deadline);
  }

  lemma NoneSound()
    ensures AllSound([])
  {}

  // ----- the report -----

  /** A function that was not planned, and why. */
  datatype Skip = Skip(path: string, line: nat, symbol: string, reason: string)

  const MAX_SKIPPED: nat := 200

  datatype Status = Ran | NothingEligible | NothingRunnable

  datatype FuzzReport = FuzzReport(status: Status, functions: seq<Function>, skipped: seq<Skip>, skippedTotal: nat)

  /** Nothing planned: because nothing is eligible, or because the template runs none of what is. */
  function StatusOf(packages: seq<Plan.Package>, skips: seq<Skip>, templates: set<string>): Status {
    if Plan.TargetsOf(packages) != [] then Ran
    else if exists k :: 0 <= k < |skips| && skips[k].reason in templates then NothingRunnable
    else NothingEligible
  }

  predicate Sooner(a: Skip, b: Skip) {
    if a.path != b.path then Text.Before(a.path, b.path) else a.line < b.line
  }

  lemma SoonerSorts()
    ensures Ordering.Weak(Sooner)
  {
    hide Text.Before;
    forall a, b | Sooner(a, b)
      ensures !Sooner(b, a)
    {
      Text.BeforeIsTotal(a.path, b.path);
    }
    forall a, b, c | !Sooner(b, a) && !Sooner(c, b)
      ensures !Sooner(c, a)
    {
      SoonerNot(a, b, c);
    }
  }

  lemma SoonerNot(a: Skip, b: Skip, c: Skip)
    requires !Sooner(b, a) && !Sooner(c, b)
    ensures !Sooner(c, a)
  {
    hide Text.Before;
    Text.BeforeIsTotal(a.path, b.path);
    Text.BeforeIsTotal(b.path, c.path);
    if a.path != b.path && b.path != c.path {
      Text.BeforeIsTransitive(a.path, b.path, c.path);
      Text.BeforeIsTotal(a.path, c.path);
    }
  }

  /** The skips as they are listed: by place, equal places in their order, and no more than the bound. */
  ghost predicate Lists(shown: seq<Skip>, skips: seq<Skip>) {
    exists all ::
      && multiset(all) == multiset(skips) && Ordering.Sorted(all, Sooner) && Ordering.Stable(all, skips, Sooner)
      && shown == if |all| > MAX_SKIPPED then all[..MAX_SKIPPED] else all
  }

  method ListSkips(skips: seq<Skip>) returns (shown: seq<Skip>, total: nat)
    ensures Lists(shown, skips) && total == |skips|
  {
    hide Ordering.Sorted, Ordering.Stable, Ordering.Weak;
    SoonerSorts();
    var all := Ordering.StableSort(skips, Sooner);
    assert |multiset(all)| == |multiset(skips)|;
    total := |all|;
    shown := all;
    if |shown| > MAX_SKIPPED {
      shown := shown[..MAX_SKIPPED];
    }
  }

  method PlannedTargets(packages: seq<Plan.Package>) returns (n: nat)
    ensures n == |Plan.TargetsOf(packages)|
  {
    n := 0;
    for i := 0 to |packages|
      invariant n == |Plan.TargetsOf(packages[..i])|
    {
      assert packages[..i + 1][..i] == packages[..i];
      n := n + |packages[i].targets|;
    }
    assert packages[..|packages|] == packages;
  }

  method FindStatus(packages: seq<Plan.Package>, skips: seq<Skip>, templates: set<string>) returns (status: Status)
    ensures status == StatusOf(packages, skips, templates)
  {
    status := Ran;
    var n := PlannedTargets(packages);
    if n == 0 {
      status := NothingEligible;
      for k := 0 to |skips|
        invariant forall j :: 0 <= j < k ==> skips[j].reason !in templates
      {
        if skips[k].reason in templates {
          return NothingRunnable;
        }
      }
    }
  }

  /**
   Run: the status, the reports of all packages in plan order, the runs each one asks for, and the
   skips as they are listed. `templates` are the reasons of what only the template could not run.
   */
  method RunStage(passed: PassedIn, packages: seq<Plan.Package>, worlds: seq<World>, skips: seq<Skip>, templates: set<string>, deadline: int)
    returns (rep: FuzzReport, asked: seq<seq<Run>>)
    requires AllFit(packages, worlds)
    ensures rep.status == StatusOf(packages, skips, templates)
    ensures rep.functions == AllReports(passed, packages, worlds, deadline)
    ensures Lists(rep.skipped, skips) && rep.skippedTotal == |skips|
    ensures |asked| == |packages|
    ensures forall k :: 0 <= k < |packages| ==> asked[k] == Asked(passed, packages[k], worlds[k], deadline)
  {
    hide Asked, Reports, Fits, Lists, StatusOf;
    var status := FindStatus(packages, skips, templates);
    var out;
    out, asked := RunPackages(passed, packages, worlds, deadline);
    var shown, total := ListSkips(skips);
    rep := FuzzReport(status, out, shown, total);
  }

  /** The loop over the packages. */
  method RunPackages(passed: PassedIn, packages: seq<Plan.Package>, worlds: seq<World>, deadline: int)
    returns (out: seq<Function>, asked: seq<seq<Run>>)
    requires AllFit(packages, worlds)
    ensures out == AllReports(passed, packages, worlds, deadline)
    ensures |asked| == |packages|
    ensures forall k :: 0 <= k < |packages| ==> asked[k] == Asked(passed, packages[k], worlds[k], deadline)
  {
    hide Asked, Reports, Fits;
    out, asked := [], [];
    for i := 0 to |packages|
      invariant AllFit(packages[..i], worlds[..i]) && out == AllReports(passed, packages[..i], worlds[..i], deadline)
      invariant |asked| == i
      invariant forall k :: 0 <= k < i ==> asked[k] == Asked(passed, packages[k], worlds[k], deadline)
    {
      var p, w := packages[i], worlds[i];
      assert packages[..i + 1][..i] == packages[..i] && worlds[..i + 1][..i] == worlds[..i];
      var more, runs := OnePackage(passed, p, w, deadline);
      out := out + more;
      asked := asked + [runs];
    }
    assert packages[..|packages|] == packages && worlds[..|worlds|] == worlds;
  }

  /** One package of the stage. */
  method OnePackage(passed: PassedIn, p: Plan.Package, w: World, deadline: int)
    returns (out: seq<Function>, asked: seq<Run>)
    requires Fits(p, w)
    ensures out == Reports(passed, p, w, deadline)
    ensures asked == Asked(passed, p, w, deadline)
  {
    hide Confirms, FunctionAt;
    if w.cancelled || w.now >= deadline {
      out := Unrun(p, OutOfTime);
      return out, [];
    }
    if w.rendered.None? {
      out := Unrun(p, NotRendered);
      return out, [];
    }
    out, asked := RunPackage(passed, p, w.rendered.value, w, deadline);
  }

  method Unrun(p: Plan.Package, why: Cause) returns (out: seq<Function>)
    requires |p.inputs| == |p.targets|
    ensures |out| == |p.targets| && forall k :: 0 <= k < |out| ==> out[k] == NotRun(p.targets[k], "", p.inputs[k], why)
  {
    out := [];
    for k := 0 to |p.targets|
      invariant |out| == k && forall j :: 0 <= j < k ==> out[j] == NotRun(p.targets[j], "", p.inputs[j], why)
    {
      out := out + [NotRun(p.targets[k], "", p.inputs[k], why)];
    }
  }
}

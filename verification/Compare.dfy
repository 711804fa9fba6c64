/** The comparison rule: what the recorded checks of one fuzz test say, side by side and input by input. */
module Compare {
  import opened Json
  import opened Records
  import opened Validator
  import opened Divergence

  // ----- recorded checks -----

  datatype CheckKind = FuzzBase | FuzzCandidate | FuzzBaseConfirm | FuzzCandidateConfirm | OtherCheck

  datatype Status = Pass | Fail | OtherStatus

  /** Check.Results: empty, text that is no canonical stream, or the text of a stream. */
  datatype Results = Missing | Unreadable | Stored(stream: Stream)

  datatype Check = Check(kind: CheckKind, replayed: bool, liveRuns: int, status: Status, exitCode: int, truncated: bool,
                         results: Results, command: seq<string>, output: string)

  /** The runner the evidence names: none (a Go harness), a known one, or an unknown one. */
  datatype EvidenceRunner = Unnamed | Named(runner: Runner) | UnknownRunner {
    predicate Framed() {
      Named? && runner.Framed()
    }
  }

  datatype Checks = Checks(base: Option<Check>, candidate: Option<Check>, baseConfirm: Option<Check>,
                           candidateConfirm: Option<Check>, runner: EvidenceRunner)

  /** harness.GoTestOutcome: the package in which the log records exactly one run and one pass of a test, or "". */
  type PassedIn = (string, string) -> string

  /** ParseResults of the recorded stream. */
  function ParsedStream(c: Check): Option<Stream> {
    if c.results.Stored? && Validates(c.results.stream) then Some(c.results.stream) else None
  }

  /** Stream.Function: the first function of that name. */
  function Lookup(fs: seq<FunctionStream>, test: string): (r: Option<FunctionStream>)
    ensures r.Some? ==> r.value in fs && r.value.test == test
    ensures r.None? ==> forall f :: f in fs ==> f.test != test
  {
    if fs == [] then None else if fs[0].test == test then Some(fs[0]) else Lookup(fs[1..], test)
  }

  // ----- one side -----

  datatype Problem =
    | NoProblem | DidNotRun | WrongKind | Replayed | ReplayedUnagreed | BadStatus | BadExitCode | LogTruncated
    | FailedWithoutStream | NoStream | StreamRejected | OtherHarness | TestMissing | OtherPlan | NotOnePass | EndedEarly

  datatype Side = Side(usable: bool, problem: Problem, stream: Option<FunctionStream>, ended: bool, pkg: string) {
    predicate Sound() {
      usable ==> stream.Some?
    }

    function Record(i: nat): Option<Record> {
      if usable && stream.Some? && i < |stream.value.records| then Some(stream.value.records[i]) else None
    }

    predicate IsComplete() {
      usable && stream.Some? && stream.value.state.Complete?
    }
  }

  function Unusable(problem: Problem): Side {
    Side(false, problem, None, false, "")
  }

  predicate EndedHere(f: FunctionStream) {
    f.state.Interrupted? || f.state.NotStarted?
  }

  /** A stream that ended inside one of its functions. */
  predicate EndedInside(s: Stream) {
    exists k :: 0 <= k < |s.functions| && s.functions[k].state.Interrupted?
  }

  const SCRIPT_PACKAGE := "(TS/JS module)"

  /** The checks on the run itself that come before its stream is read. */
  function RunProblem(c: Check, kind: CheckKind, allowReplay: bool): Problem {
    if c.kind != kind then WrongKind
    else if c.replayed && !allowReplay then Replayed
    else if c.replayed && c.liveRuns < 2 then ReplayedUnagreed
    else if c.status.OtherStatus? then BadStatus
    else NoProblem
  }

  function GoRunProblem(c: Check, kind: CheckKind, allowReplay: bool): Problem {
    var p := RunProblem(c, kind, allowReplay);
    if !p.NoProblem? then p
    else if (c.status.Pass? && c.exitCode != 0) || (c.status.Fail? && !(1 <= c.exitCode <= 124)) then BadExitCode
    else if c.truncated then LogTruncated
    else if c.results.Missing? then (if c.status.Fail? then FailedWithoutStream else NoStream)
    else if ParsedStream(c).None? then StreamRejected
    else if !ParsedStream(c).value.runner.GoTest? then OtherHarness
    else NoProblem
  }

  function ScriptRunProblem(c: Check, kind: CheckKind, allowReplay: bool, runner: Runner): Problem {
    var p := RunProblem(c, kind, allowReplay);
    if !p.NoProblem? then p
    else if c.results.Missing? then (if c.status.Fail? then FailedWithoutStream else NoStream)
    else if ParsedStream(c).None? then StreamRejected
    else if ParsedStream(c).value.runner != runner then OtherHarness
    else NoProblem
  }

  /** view: a Go side is usable when its log shows one run and one pass, and its stream did not end early. */
  function GoView(passed: PassedIn, c: Check, kind: CheckKind, test: string, planned: int, allowReplay: bool): (s: Side)
    ensures s.Sound()
  {
    var p := GoRunProblem(c, kind, allowReplay);
    if !p.NoProblem? then Unusable(p)
    else match Lookup(ParsedStream(c).value.functions, test)
         case None => Unusable(TestMissing)
         case Some(fn) =>
           if fn.planned != planned then Unusable(OtherPlan)
           else if passed(c.output, test) == "" then Side(false, NotOnePass, Some(fn), EndedHere(fn), "")
           else if EndedHere(fn) then Side(false, EndedEarly, Some(fn), false, "")
           else Side(true, NoProblem, Some(fn), false, passed(c.output, test))
  }

  /** scriptView: the log is never read; the run must pass, and the test must have its done record. */
  function ScriptView(c: Check, kind: CheckKind, test: string, planned: int, allowReplay: bool, runner: Runner): (s: Side)
    ensures s.Sound()
  {
    var p := ScriptRunProblem(c, kind, allowReplay, runner);
    if !p.NoProblem? then Unusable(p)
    else
      var stream := ParsedStream(c).value;
      match Lookup(stream.functions, test)
      case None => Unusable(TestMissing)
      case Some(fn) =>
        if fn.planned != planned then Unusable(OtherPlan)
        else if !c.status.Pass? || c.exitCode != 0 then Side(false, BadExitCode, Some(fn), EndedHere(fn), "")
        else if EndedHere(fn) then Side(false, EndedEarly, Some(fn), EndedInside(stream), "")
        else Side(true, NoProblem, Some(fn), false, SCRIPT_PACKAGE)
  }

  function ViewOf(passed: PassedIn, c: Option<Check>, kind: CheckKind, test: string, planned: int, allowReplay: bool,
                runner: EvidenceRunner): (s: Side)
    ensures s.Sound()
  {
    if c.None? then Unusable(DidNotRun)
    else if runner.Framed() then ScriptView(c.value, kind, test, planned, allowReplay, runner.runner)
    else GoView(passed, c.value, kind, test, planned, allowReplay)
  }

  /** The four sides: the first pair and the confirmation pair. */
  datatype Sides = Sides(b1: Side, c1: Side, b2: Side, c2: Side) {
    predicate Sound() {
      b1.Sound() && c1.Sound() && b2.Sound() && c2.Sound()
    }

    function List(): seq<Side> {
      [b1, c1, b2, c2]
    }
  }

  function Confirms(c: Checks): bool {
    c.baseConfirm.Some? || c.candidateConfirm.Some?
  }

  /** A side that was not asked for: no check, and no problem to tell. */
  const ABSENT := Unusable(NoProblem)

  function SidesOf(passed: PassedIn, c: Checks, test: string, planned: int): (s: Sides)
    ensures s.Sound()
  {
    Sides(ViewOf(passed, c.base, FuzzBase, test, planned, true, c.runner),
          ViewOf(passed, c.candidate, FuzzCandidate, test, planned, false, c.runner),
          if Confirms(c) then ViewOf(passed, c.baseConfirm, FuzzBaseConfirm, test, planned, false, c.runner) else ABSENT,
          if Confirms(c) then ViewOf(passed, c.candidateConfirm, FuzzCandidateConfirm, test, planned, false, c.runner) else ABSENT)
  }

  // ----- one experiment -----

  predicate OneCommand(checks: seq<Option<Check>>) {
    && (forall k :: 0 <= k < |checks| && checks[k].Some? ==> checks[k].value.command != [])
    && (forall j, k :: 0 <= j < k < |checks| && checks[j].Some? && checks[k].Some? ==>
                         checks[j].value.command == checks[k].value.command)
  }

  predicate OnePackage(sides: seq<Side>) {
    forall j, k :: 0 <= j < k < |sides| && sides[j].usable && sides[k].usable ==> sides[j].pkg == sides[k].pkg
  }

  function RecordsAt(s: Side): seq<Record> {
    if s.usable && s.stream.Some? then s.stream.value.records else []
  }

  /** Records of the same index tell of the same call. */
  predicate OneCorpus(sides: seq<Side>) {
    forall j, k :: 0 <= j < |sides| && 0 <= k < |sides| ==>
      forall x, y :: x in RecordsAt(sides[j]) && y in RecordsAt(sides[k]) && x.index == y.index ==> x.call == y.call
  }

  /** One identical command, one package, and the same inputs at every index. */
  predicate Consistent(c: Checks, s: Sides) {
    && OneCommand([c.base, c.candidate, c.baseConfirm, c.candidateConfirm])
    && OnePackage(s.List())
    && OneCorpus(s.List())
  }

  // ----- one input -----

  /** What the records of one input say. `Shaky` inputs may separate the revisions. */
  datatype Finding = Absent | Shaky(separates: bool) | Same | Unconfirmed | Unrepeated | Split

  predicate Agrees(x: Record, y: Record) {
    x.hash == y.hash && x.length == y.length
  }

  /** A confirmation repeats the first record of its revision. */
  predicate Repeats(again: Record, first: Record) {
    !again.unstable && Agrees(again, first)
  }

  function Find(s: Sides, i: nat): Finding {
    match (s.b1.Record(i), s.c1.Record(i))
    case (Some(b), Some(c)) =>
      if b.unstable || c.unstable then Shaky(!b.unstable)
      else if Agrees(b, c) then Same
      else (match (s.b2.Record(i), s.c2.Record(i))
            case (Some(b'), Some(c')) => if Repeats(b', b) && Repeats(c', c) then Split else Unrepeated
            case _ => Unconfirmed)
    case _ => Absent
  }

  datatype Tally = Tally(compared: nat, diverged: nat, unstable: nat, unconfirmed: nat, notRecorded: nat,
                         separating: nat, differs: bool, divergent: seq<Divergent>)

  const EMPTY_TALLY := Tally(0, 0, 0, 0, 0, 0, false, [])

  function DivergentAt(s: Sides, i: nat): Divergent
    requires Find(s, i).Split?
  {
    Divergent(i, s.b1.Record(i).value, s.c1.Record(i).value)
  }

  function Count(t: Tally, s: Sides, i: nat): Tally {
    match Find(s, i)
    case Absent => t.(notRecorded := t.notRecorded + 1)
    case Shaky(separates) => t.(unstable := t.unstable + 1, separating := t.separating + if separates then 1 else 0)
    case Same => t.(compared := t.compared + 1)
    case Unconfirmed => t.(unconfirmed := t.unconfirmed + 1, differs := true)
    case Unrepeated => t.(unstable := t.unstable + 1, separating := t.separating + 1, differs := true)
    case Split => t.(compared := t.compared + 1, diverged := t.diverged + 1, differs := true,
                     divergent := t.divergent + [DivergentAt(s, i)])
  }

  function TallyOf(s: Sides, n: nat): Tally {
    if n == 0 then EMPTY_TALLY else Count(TallyOf(s, n - 1), s, n - 1)
  }

  // ----- the outcome -----

  datatype Verdict = Diverged | NotDiverged | Inconclusive

  datatype Reason =
    | NoReason | NothingPlanned | UnknownRunnerNamed | NotOneExperiment | NotConfirmed(problem: Problem)
    | BaselineUnusable(problem: Problem) | CandidateUnusable(problem: Problem) | BaselineStopped | CandidateStopped
    | AllUnstable | SomeSeparate(count: nat) | NothingCompared

  /** The input that is shown for a divergence. */
  datatype Counterexample = Counterexample(index: int, input: string, base: string, candidate: string)

  function CounterexampleOf(d: Divergent): Counterexample {
    Counterexample(d.index, d.base.call, d.base.display, d.candidate.display)
  }

  datatype Evaluation = Evaluation(outcome: Verdict, reason: Reason, inputs: nat, compared: nat, diverged: nat, unstable: nat,
                                   unconfirmed: nat, notRecorded: nat, differs: bool, divergent: seq<Divergent>,
                                   counterexample: Option<Counterexample>, counterexampleCut: bool)

  /** The reason of an inconclusive function, or NoReason when it did not diverge. */
  function Why(s: Sides, confirm: bool, planned: nat, t: Tally): Reason
    requires s.Sound()
  {
    if t.unconfirmed > 0 then
      NotConfirmed(if !confirm then DidNotRun else if !s.b2.usable then s.b2.problem else if !s.c2.usable then s.c2.problem else NoProblem)
    else if s.b1.IsComplete() && s.c1.IsComplete() && t.compared > 0 && t.separating == 0 then NoReason
    else if !s.b1.usable then BaselineUnusable(s.b1.problem)
    else if !s.c1.usable then CandidateUnusable(s.c1.problem)
    else if !s.b1.IsComplete() then BaselineStopped
    else if !s.c1.IsComplete() then CandidateStopped
    else if t.unstable == planned then AllUnstable
    else if t.separating > 0 then SomeSeparate(t.separating)
    else NothingCompared
  }

  function Refused(planned: nat, reason: Reason): Evaluation {
    Evaluation(Inconclusive, reason, planned, 0, 0, 0, 0, planned, false, [], None, false)
  }

  function Concluded(s: Sides, confirm: bool, planned: nat): Evaluation
    requires s.Sound()
  {
    var t := TallyOf(s, planned);
    var reason := if t.diverged > 0 then NoReason else Why(s, confirm, planned, t);
    var outcome := if t.diverged > 0 then Diverged else if reason.NoReason? then NotDiverged else Inconclusive;
    var list := Listed(t.divergent);
    Evaluation(outcome, reason, planned, t.compared, t.diverged, t.unstable, t.unconfirmed, t.notRecorded, t.differs, list,
               if list == [] then None else Some(CounterexampleOf(list[0])),
               list != [] && (!Whole(list[0].base) || !Whole(list[0].candidate)))
  }

  /** The evaluation of one fuzz test from its recorded checks. */
  function Evaluated(passed: PassedIn, c: Checks, test: string, planned: int): Evaluation {
    if planned < 1 then Refused(0, NothingPlanned)
    else if c.runner.UnknownRunner? then Refused(planned, UnknownRunnerNamed)
    else
      var s := SidesOf(passed, c, test, planned);
      if !Consistent(c, s) then Refused(planned, NotOneExperiment) else Concluded(s, Confirms(c), planned)
  }
}

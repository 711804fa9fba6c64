/**
 The two acceptors agree: what the second one accepts is, up to displays, what the first one builds
 of some run of the harness.
 */
module Agreement {
  import opened Utf8
  import opened Json
  import opened Records
  import opened Emitter
  import opened Automaton
  import opened Language
  import opened Normalizer
  import opened Capture
  import opened Validator

  // ----- streams up to displays -----

  function EraseRecord(r: Record): Record {
    r.(display := "")
  }

  function EraseRecords(rs: seq<Record>): (e: seq<Record>)
    ensures |e| == |rs| && forall k :: 0 <= k < |rs| ==> e[k] == EraseRecord(rs[k])
  {
    seq(|rs|, k requires 0 <= k < |rs| => EraseRecord(rs[k]))
  }

  function Erase(f: FunctionStream): FunctionStream {
    f.(records := EraseRecords(f.records))
  }

  predicate SameButDisplays(a: seq<FunctionStream>, b: seq<FunctionStream>) {
    |a| == |b| && forall k :: 0 <= k < |a| ==> Erase(a[k]) == Erase(b[k])
  }

  lemma SameCons(x: FunctionStream, y: FunctionStream, xs: seq<FunctionStream>, ys: seq<FunctionStream>)
    requires Erase(x) == Erase(y) && SameButDisplays(xs, ys)
    ensures SameButDisplays([x] + xs, [y] + ys)
  {
    hide Erase;
  }

  /** The calls of a function are the harness's inputs, in order. */
  predicate Calls(h: Harness, f: int, fn: FunctionStream)
    requires h.Has(f)
  {
    && fn.test == h.Name(f) && fn.planned == h.Planned(f) && |fn.records| <= fn.planned
    && (forall i :: 0 <= i < |fn.records| ==> fn.records[i].call == h.tests[f - 1].inputs[i])
    && (0 <= fn.at < fn.planned ==> fn.atCall == h.tests[f - 1].inputs[fn.at])
  }

  predicate Describes(h: Harness, f: int, fs: seq<FunctionStream>) {
    && f >= 1 && f + |fs| == |h.tests| + 1
    && forall k :: 0 <= k < |fs| ==> Calls(h, f + k, fs[k])
  }

  // ----- the results a stream tells of -----

  /** A display that fits the length: its content is free. */
  function Filler(display: nat, length: nat): (s: string)
    ensures |s| <= display && |s| <= length && (length <= display ==> |s| == length)
  {
    seq(if length <= display then length else display, k => ' ')
  }

  function Replayed(h: Harness, r: Record): CallResult {
    Observed(Obs(r.hash, r.length, if r.length < 0 then "" else Filler(h.display, r.length), r.panicked, r.unstable, r.truncated))
  }

  function Replay(h: Harness, records: seq<Record>): (rs: seq<CallResult>)
    ensures |rs| == |records| && forall k :: 0 <= k < |rs| ==> rs[k] == Replayed(h, records[k])
  {
    seq(|records|, k requires 0 <= k < |records| => Replayed(h, records[k]))
  }

  /** The records of a run in which the recorded results happen again. */
  function Rerecord(h: Harness, red: Redaction, f: int, k: nat, records: seq<Record>): (rs: seq<Record>)
    requires h.Has(f) && k + |records| <= h.Planned(f)
    ensures |rs| == |records|
    ensures forall j :: 0 <= j < |rs| ==> rs[j] == RecordOf(h, red, f, Replayed(h, records[j]).obs, k + j)
  {
    seq(|records|, j requires 0 <= j < |records| => RecordOf(h, red, f, Replayed(h, records[j]).obs, k + j))
  }

  /** The result after the recorded ones: the stop, when there is one, and nothing of interest after it. */
  function Closing(h: Harness, fn: FunctionStream): (rs: seq<CallResult>)
    requires |fn.records| <= fn.planned
    ensures |rs| == fn.planned - |fn.records|
  {
    var left := fn.planned - |fn.records|;
    if left > 0 && fn.state.Stopped? && fn.stop != POISONED then [Broke(HowOf(fn.stop))] + AnyResults(left - 1)
    else AnyResults(left)
  }

  function ResultsOf(h: Harness, fn: FunctionStream): (rs: seq<CallResult>)
    requires |fn.records| <= fn.planned
    ensures |rs| == fn.planned
  {
    Replay(h, fn.records) + Closing(h, fn)
  }

  lemma EraseRerecord(h: Harness, red: Redaction, f: int, fn: FunctionStream)
    requires h.Has(f) && Calls(h, f, fn)
    requires forall i :: 0 <= i < |fn.records| ==> RecordOk(h.display, i, fn.records[i])
    ensures EraseRecords(Rerecord(h, red, f, 0, fn.records)) == EraseRecords(fn.records)
  {
    hide DisplayValue, IsHash, Valid;
    forall i | 0 <= i < |fn.records|
      ensures EraseRecord(Rerecord(h, red, f, 0, fn.records)[i]) == EraseRecord(fn.records[i])
    {
      assert RecordOk(h.display, i, fn.records[i]);
    }
  }

  lemma ReplayFits(h: Harness, fn: FunctionStream, timedOut: bool)
    requires FunctionOk(h.display, h.runner, timedOut, fn)
    ensures ResultsFit(h, ResultsOf(h, fn), fn.planned)
    ensures forall j :: 0 <= j < fn.planned ==> Spoken(ResultsOf(h, fn)[j])
  {
    hide IsTestName;
    var rs := ResultsOf(h, fn);
    ReasonsDiffer();
    forall j | 0 <= j < |rs|
      ensures Producible(h, rs[j]) && Spoken(rs[j])
    {
      if j < |fn.records| {
        assert RecordOk(h.display, j, fn.records[j]);
        assert rs[j] == Replayed(h, fn.records[j]);
        AsciiIsValid(Filler(h.display, fn.records[j].length));
      } else {
        assert rs[j] == Closing(h, fn)[j - |fn.records|];
      }
    }
  }

  lemma {:induction false} ObservationsOfReplay(h: Harness, records: seq<Record>, after: seq<CallResult>)
    ensures Observations(false, Replay(h, records) + after) == |records| + Observations(false, after)
    ensures Poisons(false, Replay(h, records) + after) == Poisons(false, after)
    decreases |records|
  {
    hide Replayed;
    if records == [] {
      assert Replay(h, records) + after == after;
    } else {
      ObservationsOfReplay(h, records[1..], after);
      assert (Replay(h, records) + after)[1..] == Replay(h, records[1..]) + after;
      assert (Replay(h, records) + after)[0] == Replayed(h, records[0]);
      ReplayedIsObserved(h, records[0]);
    }
  }

  lemma ReplayedIsObserved(h: Harness, r: Record)
    ensures Replayed(h, r).Observed?
  {}

  /** Running the recorded results again ends the function as the stream says. */
  lemma {:induction false} RanReplay(h: Harness, red: Redaction, f: int, done: seq<Record>, records: seq<Record>, after: seq<CallResult>)
    requires h.Has(f) && |done| + |records| + |after| == h.Planned(f) && (after != [] ==> after[0].Broke?)
    ensures var all := done + Rerecord(h, red, f, |done|, records);
            RanStream(h, red, f, done, false, Replay(h, records) + after) ==
            if after == [] then CompleteStream(h, f, all) else StoppedStream(h, f, all, Reason(after[0].how))
    decreases |records|
  {
    hide Replayed, RecordOf;
    if records == [] {
      assert Replay(h, records) + after == after;
      assert done + Rerecord(h, red, f, |done|, records) == done;
    } else {
      var rs := Replay(h, records) + after;
      ReplayedIsObserved(h, records[0]);
      assert rs[0] == Replayed(h, records[0]);
      assert rs[1..] == Replay(h, records[1..]) + after;
      var next := done + [RecordOf(h, red, f, Replayed(h, records[0]).obs, |done|)];
      RanReplay(h, red, f, next, records[1..], after);
      assert next + Rerecord(h, red, f, |next|, records[1..]) == done + Rerecord(h, red, f, |done|, records);
    }
  }

  /** The lines of f that are written when its stream is `fn`. */
  function Written(h: Harness, f: int, timedOut: bool, fn: FunctionStream): nat
    requires h.Has(f) && |fn.records| <= fn.planned
  {
    match fn.state
    case Interrupted => |OpenLines(h, f)| + |fn.records|
    case NotStarted => 0
    case _ => |TestLines(h, f, timedOut, ResultsOf(h, fn))|
  }

  /** A function that ended has the state its results lead to. */
  lemma EndedAgain(h: Harness, red: Redaction, f: int, timedOut: bool, fn: FunctionStream)
    requires h.Has(f) && Calls(h, f, fn) && FunctionOk(h.display, h.runner, timedOut, fn) && Ended(fn)
    ensures Erase(RanStream(h, red, f, [], timedOut, ResultsOf(h, fn))) == Erase(fn)
    ensures Poisons(timedOut, ResultsOf(h, fn)) == TimesOut(timedOut, fn)
  {
    hide IsTestName, RecordOf, RecordOk;
    ReasonsDiffer();
    var rs, after := ResultsOf(h, fn), Closing(h, fn);
    EraseRerecord(h, red, f, fn);
    if timedOut {
      assert fn.records == [];
    } else {
      RanReplay(h, red, f, [], fn.records, after);
      ObservationsOfReplay(h, fn.records, after);
      assert [] + Rerecord(h, red, f, 0, fn.records) == Rerecord(h, red, f, 0, fn.records);
    }
  }

  /** A function that was cut off was cut off at a line of its results. */
  lemma InterruptedAgain(h: Harness, red: Redaction, f: int, timedOut: bool, fn: FunctionStream)
    requires h.Has(f) && Calls(h, f, fn) && FunctionOk(h.display, h.runner, timedOut, fn) && fn.state.Interrupted?
    ensures var ls, m := TestLines(h, f, timedOut, ResultsOf(h, fn)), Written(h, f, timedOut, fn);
            && 0 < m < |ls|
            && Erase(InterruptedStream(h, f, RecordsIn(h, red, f, ls[..m]))) == Erase(fn)
  {
    hide IsTestName, RecordOf, RecordOk, InputLines, RecordsIn;
    var rs, after := ResultsOf(h, fn), Closing(h, fn);
    var ls, m := TestLines(h, f, timedOut, rs), Written(h, f, timedOut, fn);
    ObservationsOfReplay(h, fn.records, after);
    ObservationsShort(f, 0, rs);
    RecordsInTest(h, red, f, timedOut, rs, m);
    var records := RecordsIn(h, red, f, ls[..m]);
    assert |records| == |fn.records|;
    forall j | 0 <= j < |records|
      ensures records[j] == Rerecord(h, red, f, 0, fn.records)[j]
    {
      assert rs[j] == Replayed(h, fn.records[j]);
    }
    assert records == Rerecord(h, red, f, 0, fn.records);
    EraseRerecord(h, red, f, fn);
  }

  function RunsOf(h: Harness, fs: seq<FunctionStream>): (runs: seq<seq<CallResult>>)
    requires forall k :: 0 <= k < |fs| ==> |fs[k].records| <= fs[k].planned
    ensures |runs| == |fs| && forall k :: 0 <= k < |fs| ==> runs[k] == ResultsOf(h, fs[k])
  {
    seq(|fs|, k requires 0 <= k < |fs| => ResultsOf(h, fs[k]))
  }

  predicate Bounded(fs: seq<FunctionStream>) {
    forall k :: 0 <= k < |fs| ==> |fs[k].records| <= fs[k].planned
  }

  function LinesOf(h: Harness, f: int, timedOut: bool, fs: seq<FunctionStream>): nat
    requires f >= 1 && f + |fs| == |h.tests| + 1 && Bounded(fs)
    decreases |fs|
  {
    if fs == [] || fs[0].state.NotStarted? then 0
    else if fs[0].state.Interrupted? then Written(h, f, timedOut, fs[0])
    else Written(h, f, timedOut, fs[0]) + LinesOf(h, f + 1, TimesOut(timedOut, fs[0]), fs[1..])
  }

  lemma {:induction false} FunctionsFit(h: Harness, f: int, ended: bool, timedOut: bool, fs: seq<FunctionStream>)
    requires Describes(h, f, fs) && FunctionsOk(h.display, h.runner, ended, timedOut, fs)
    ensures Bounded(fs) && RunsFit(h, f, RunsOf(h, fs)) && SpokenRuns(RunsOf(h, fs))
    decreases |fs|
  {
    hide FunctionOk, Calls, ResultsOf, ResultsFit, Describes, Spoken;
    DescribesSize(h, f, fs);
    if fs != [] {
      OneFits(h, f, timedOut, fs);
      DescribesTail(h, f, fs);
      FunctionsFit(h, f + 1, EndsProcess(ended, fs[0]), TimesOut(timedOut, fs[0]), fs[1..]);
      MoreFit(h, f, fs);
    }
  }

  lemma DescribesSize(h: Harness, f: int, fs: seq<FunctionStream>)
    requires Describes(h, f, fs)
    ensures 1 <= f && f + |fs| == |h.tests| + 1
  {}

  lemma MoreFit(h: Harness, f: int, fs: seq<FunctionStream>)
    requires fs != [] && 1 <= f <= |h.tests| && |fs[0].records| <= fs[0].planned && Bounded(fs[1..])
    requires ResultsFit(h, ResultsOf(h, fs[0]), h.Planned(f)) && RunsFit(h, f + 1, RunsOf(h, fs[1..]))
    requires forall j :: 0 <= j < |ResultsOf(h, fs[0])| ==> Spoken(ResultsOf(h, fs[0])[j])
    requires SpokenRuns(RunsOf(h, fs[1..]))
    ensures Bounded(fs) && RunsFit(h, f, RunsOf(h, fs)) && SpokenRuns(RunsOf(h, fs))
  {
    hide ResultsOf, ResultsFit, RunsFit, Spoken;
    BoundedMore(fs);
    assert RunsOf(h, fs) == [ResultsOf(h, fs[0])] + RunsOf(h, fs[1..]);
    RunsCons(h, f, ResultsOf(h, fs[0]), RunsOf(h, fs[1..]));
    SpokenMore(ResultsOf(h, fs[0]), RunsOf(h, fs[1..]));
  }

  lemma BoundedMore(fs: seq<FunctionStream>)
    requires fs != [] && |fs[0].records| <= fs[0].planned && Bounded(fs[1..])
    ensures Bounded(fs)
  {
    assert fs == [fs[0]] + fs[1..];
  }

  lemma SpokenMore(rs: seq<CallResult>, runs: seq<seq<CallResult>>)
    requires SpokenRuns(runs) && forall j :: 0 <= j < |rs| ==> Spoken(rs[j])
    ensures SpokenRuns([rs] + runs)
  {
    hide Spoken;
  }

  lemma OneFits(h: Harness, f: int, timedOut: bool, fs: seq<FunctionStream>)
    requires fs != [] && Describes(h, f, fs) && FunctionOk(h.display, h.runner, timedOut, fs[0])
    ensures |fs[0].records| <= fs[0].planned
    ensures ResultsFit(h, ResultsOf(h, fs[0]), h.Planned(f)) && forall j :: 0 <= j < h.Planned(f) ==> Spoken(ResultsOf(h, fs[0])[j])
  {
    assert Calls(h, f + 0, fs[0]);
    ReplayFits(h, fs[0], timedOut);
  }

  lemma DescribesTail(h: Harness, f: int, fs: seq<FunctionStream>)
    requires fs != [] && Describes(h, f, fs)
    ensures h.Has(f) && Calls(h, f, fs[0]) && Describes(h, f + 1, fs[1..])
  {
    hide Calls;
    assert Calls(h, f + 0, fs[0]);
    forall k | 0 <= k < |fs| - 1
      ensures Calls(h, f + 1 + k, fs[1..][k])
    {
      assert Calls(h, f + (k + 1), fs[k + 1]);
    }
  }

  lemma NoneAgain(h: Harness, f: int, fs: seq<FunctionStream>)
    requires fs == [] && Describes(h, f, fs)
    ensures f == |h.tests| + 1 && SameButDisplays([], fs)
  {}

  lemma NotStartedAgain(h: Harness, f: int, timedOut: bool, fn: FunctionStream)
    requires h.Has(f) && Calls(h, f, fn) && FunctionOk(h.display, h.runner, timedOut, fn) && fn.state.NotStarted?
    ensures Erase(NotStartedStream(h, f)) == Erase(fn)
  {}

  /** Once the process ended, nothing began. */
  lemma {:induction false} UnstartedAgain(h: Harness, f: int, timedOut: bool, fs: seq<FunctionStream>)
    requires Describes(h, f, fs) && FunctionsOk(h.display, h.runner, true, timedOut, fs)
    ensures SameButDisplays(Unstarted(h, f), fs)
    decreases |fs|
  {
    hide Calls, Erase, FunctionOk, SameButDisplays, Describes;
    if fs == [] {
      NoneAgain(h, f, fs);
    } else {
      DescribesTail(h, f, fs);
      NotStartedAgain(h, f, timedOut, fs[0]);
      UnstartedAgain(h, f + 1, timedOut, fs[1..]);
      SameCons(NotStartedStream(h, f), fs[0], Unstarted(h, f + 1), fs[1..]);
      assert fs == [fs[0]] + fs[1..];
    }
  }

  /** `fs` is the stream of its own results, cut after the lines it tells of. */
  predicate Again(h: Harness, red: Redaction, f: int, timedOut: bool, fs: seq<FunctionStream>)
    requires h.Renderable() && f >= 1 && f + |fs| == |h.tests| + 1 && Bounded(fs)
  {
    && RunsFit(h, f, RunsOf(h, fs))
    && LinesOf(h, f, timedOut, fs) <= |RunLines(h, f, timedOut, RunsOf(h, fs))|
    && SameButDisplays(StreamOf(h, red, f, timedOut, RunsOf(h, fs), LinesOf(h, f, timedOut, fs)), fs)
  }

  lemma CutAgain(h: Harness, red: Redaction, f: int, timedOut: bool, fs: seq<FunctionStream>)
    requires h.Renderable() && Describes(h, f, fs) && FunctionsOk(h.display, h.runner, false, timedOut, fs)
    requires fs != [] && fs[0].state.Interrupted? && Bounded(fs)
    ensures Again(h, red, f, timedOut, fs)
  {
    hide FunctionOk, Calls, Erase, SameButDisplays, TestLines, Written, StreamOf, ResultsOf, Unstarted, RecordsIn, ResultsFit;
    FunctionsFit(h, f, false, timedOut, fs);
    var runs, m := RunsOf(h, fs), LinesOf(h, f, timedOut, fs);
    DescribesTail(h, f, fs);
    StreamStep(h, red, f, timedOut, runs, m);
    InterruptedAgain(h, red, f, timedOut, fs[0]);
    UnstartedAgain(h, f + 1, timedOut, fs[1..]);
    var ls := TestLines(h, f, timedOut, runs[0]);
    SameCons(InterruptedStream(h, f, RecordsIn(h, red, f, ls[..m])), fs[0], Unstarted(h, f + 1), fs[1..]);
    assert fs == [fs[0]] + fs[1..];
  }

  lemma RunLength(h: Harness, f: int, poisoned: bool, runs: seq<seq<CallResult>>)
    requires f >= 1 && f + |runs| == |h.tests| + 1 && runs != []
    ensures |RunLines(h, f, poisoned, runs)| ==
            |TestLines(h, f, poisoned, runs[0])| + |RunLines(h, f + 1, Poisons(poisoned, runs[0]), runs[1..])|
  {
    hide TestLines, Poisons;
  }

  lemma RanHead(h: Harness, red: Redaction, f: int, timedOut: bool, fs: seq<FunctionStream>)
    requires h.Renderable() && Describes(h, f, fs) && FunctionsOk(h.display, h.runner, false, timedOut, fs)
    requires fs != [] && !fs[0].state.Interrupted? && !fs[0].state.NotStarted? && Bounded(fs)
    ensures h.Has(f) && f + |fs| == |h.tests| + 1 && |ResultsOf(h, fs[0])| == h.Planned(f)
    ensures Erase(RanStream(h, red, f, [], timedOut, ResultsOf(h, fs[0]))) == Erase(fs[0])
    ensures Poisons(timedOut, ResultsOf(h, fs[0])) == TimesOut(timedOut, fs[0])
    ensures RunsFit(h, f, RunsOf(h, fs)) && RunsOf(h, fs)[1..] == RunsOf(h, fs[1..])
  {
    hide FunctionOk, Calls, Erase, TestLines;
    FunctionsFit(h, f, false, timedOut, fs);
    DescribesTail(h, f, fs);
    RunsTail(h, f, RunsOf(h, fs));
    EndedState(h, timedOut, fs[0]);
    EndedAgain(h, red, f, timedOut, fs[0]);
  }

  lemma RanAgain(h: Harness, red: Redaction, f: int, timedOut: bool, fs: seq<FunctionStream>)
    requires h.Renderable() && Describes(h, f, fs) && FunctionsOk(h.display, h.runner, false, timedOut, fs)
    requires fs != [] && !fs[0].state.Interrupted? && !fs[0].state.NotStarted? && Bounded(fs)
    requires Again(h, red, f + 1, TimesOut(timedOut, fs[0]), fs[1..])
    ensures Again(h, red, f, timedOut, fs)
  {
    hide FunctionOk, FunctionsOk, Describes, RunsFit, Calls, Erase, SameButDisplays, TestLines, StreamOf, RunLines, RanStream, Poisons;
    RanHead(h, red, f, timedOut, fs);
    var runs, next := RunsOf(h, fs), TimesOut(timedOut, fs[0]);
    var n := LinesOf(h, f + 1, next, fs[1..]);
    RunLength(h, f, timedOut, runs);
    StreamStep(h, red, f, timedOut, runs, |TestLines(h, f, timedOut, runs[0])| + n);
    SameCons(RanStream(h, red, f, [], timedOut, runs[0]), fs[0], StreamOf(h, red, f + 1, next, runs[1..], n), fs[1..]);
    assert fs == [fs[0]] + fs[1..];
  }

  lemma {:induction false} RunAgain(h: Harness, red: Redaction, f: int, timedOut: bool, fs: seq<FunctionStream>)
    requires h.Renderable() && Describes(h, f, fs) && FunctionsOk(h.display, h.runner, false, timedOut, fs)
    ensures Bounded(fs) && Again(h, red, f, timedOut, fs)
    decreases |fs|
  {
    hide FunctionOk, Calls, Erase, SameButDisplays;
    FunctionsFit(h, f, false, timedOut, fs);
    if fs == [] || fs[0].state.NotStarted? {
      NothingAgain(h, f, timedOut, fs);
    } else if fs[0].state.Interrupted? {
      CutAgain(h, red, f, timedOut, fs);
    } else {
      hide Again;
      DescribesTail(h, f, fs);
      RunAgain(h, red, f + 1, TimesOut(timedOut, fs[0]), fs[1..]);
      RanAgain(h, red, f, timedOut, fs);
    }
  }

  lemma NothingAgain(h: Harness, f: int, timedOut: bool, fs: seq<FunctionStream>)
    requires Describes(h, f, fs) && FunctionsOk(h.display, h.runner, false, timedOut, fs)
    requires fs == [] || fs[0].state.NotStarted?
    ensures SameButDisplays(Unstarted(h, f), fs)
  {
    hide FunctionOk;
    if fs != [] {
      assert FunctionsOk(h.display, h.runner, true, timedOut, fs);
    }
    UnstartedAgain(h, f, timedOut, fs);
  }

  lemma EndedState(h: Harness, timedOut: bool, fn: FunctionStream)
    requires FunctionOk(h.display, h.runner, timedOut, fn) && !fn.state.NotStarted? && !fn.state.Interrupted?
    ensures Ended(fn)
  {}

  /**
   The second acceptor accepts no stream of its own: a validated stream that describes the
   harness's inputs is, up to displays, what the automaton builds from some run that a process
   left after some line. With NormalizedValidates, the two acceptors accept the same streams,
   but for the one of a process that wrote nothing, which has no payload.
   */
  lemma ValidatedIsRun(h: Harness, red: Redaction, s: Stream)
    requires Proper(h) && Validates(s) && s.display == h.display && s.runner == h.runner && Describes(h, 1, s.functions)
    ensures exists runs, m: nat :: RunsFit(h, 1, runs) && SpokenRuns(runs) && m <= |Run(h, runs)|
                              && SameButDisplays(StreamOf(h, red, 1, false, runs, m), s.functions)
                              && (m == 0 <==> s.functions[0].state.NotStarted?)
  {
    hide StreamOf, SameButDisplays, Calls, FunctionOk;
    var fs := s.functions;
    FunctionsFit(h, 1, false, false, fs);
    RunAgain(h, red, 1, false, fs);
    var runs, m := RunsOf(h, fs), LinesOf(h, 1, false, fs);
    DescribesTail(h, 1, fs);
    if fs[0].state.Interrupted? {
      InterruptedAgain(h, red, 1, false, fs[0]);
    }
    assert m == 0 <==> fs[0].state.NotStarted?;
    assert RunsFit(h, 1, runs) && SpokenRuns(runs) && m <= |Run(h, runs)|
           && SameButDisplays(StreamOf(h, red, 1, false, runs, m), fs);
  }
}

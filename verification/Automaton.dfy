/**
 The automaton that reads raw streams of either format record by record, and the stream that a run
 has wherever it ends.
 */
module Automaton {
  import opened Json
  import opened Records
  import opened Emitter

  /** After a head record, while records are open, after an end or stop record, or between functions. */
  datatype Phase = Between | Headed | Open | Closed(closing: FunctionStream)

  /**
   `finished` are the functions read to their last record; while the phase is not `Between`,
   the next one is being read and `records` are its observations so far.
   */
  datatype Auto = Auto(finished: seq<FunctionStream>, phase: Phase, records: seq<Record>, timedOut: bool) {
    /** The function being read, or the next one to begin. */
    function F(): int {
      |finished| + 1
    }
  }

  const START := Auto([], Between, [], false)

  function RecordOf(h: Harness, red: Redaction, f: int, o: Obs, i: nat): Record
    requires h.Has(f) && i < h.Planned(f)
  {
    Record(i, h.tests[f - 1].inputs[i], o.hash, o.length, DisplayValue(red, o.shown, h.display), o.panicked, o.unstable, o.truncated)
  }

  function NotStartedStream(h: Harness, f: int): FunctionStream
    requires h.Has(f)
  {
    FunctionStream(h.Name(f), h.Planned(f), NotStarted, "", -1, "", [])
  }

  function CompleteStream(h: Harness, f: int, records: seq<Record>): FunctionStream
    requires h.Has(f)
  {
    FunctionStream(h.Name(f), h.Planned(f), Complete, "", -1, "", records)
  }

  function StoppedStream(h: Harness, f: int, records: seq<Record>, reason: string): FunctionStream
    requires h.Has(f) && |records| < h.Planned(f)
  {
    FunctionStream(h.Name(f), h.Planned(f), Stopped, reason, |records|, h.tests[f - 1].inputs[|records|], records)
  }

  function InterruptedStream(h: Harness, f: int, records: seq<Record>): FunctionStream
    requires h.Has(f)
  {
    FunctionStream(h.Name(f), h.Planned(f), Interrupted, "", |records|,
                   if |records| < h.Planned(f) then h.tests[f - 1].inputs[|records|] else "", records)
  }

  /** The functions from f on, none of which has a record. */
  function Unstarted(h: Harness, f: int): (s: seq<FunctionStream>)
    requires 1 <= f <= |h.tests| + 1
    ensures |s| == |h.tests| - f + 1
    decreases |h.tests| + 1 - f
  {
    if f > |h.tests| then [] else [NotStartedStream(h, f)] + Unstarted(h, f + 1)
  }

  // ----- one line -----

  /** The reasons a stop record may give: only "poisoned" after a timeout, and only then. */
  predicate StopAllowed(h: Harness, timedOut: bool, i: int, reason: string) {
    if reason == POISONED then timedOut && i == 0
    else !timedOut && (reason == TIMEOUT || reason == ABORT || (reason == GOEXIT && !h.runner.Framed()))
  }

  /** The function being read gets its last state: at once, or when its done record follows. */
  function Close(h: Harness, a: Auto, fn: FunctionStream, timedOut: bool): Auto {
    if h.runner.Framed() then Auto(a.finished, Closed(fn), a.records, timedOut)
    else Auto(a.finished + [fn], Between, [], timedOut)
  }

  function StepOpen(h: Harness, red: Redaction, a: Auto, l: Line): Option<Auto>
    requires h.Has(a.F())
  {
    var planned := h.Planned(a.F());
    match l
    case Seen(_, i, o) =>
      if !a.timedOut && i == |a.records| && i < planned && Shaped(h.display, o)
      then Some(a.(records := a.records + [RecordOf(h, red, a.F(), o, i)])) else None
    case Stop(_, i, reason) =>
      if i == |a.records| && i < planned && StopAllowed(h, a.timedOut, i, reason)
      then Some(Close(h, a, StoppedStream(h, a.F(), a.records, reason), a.timedOut || reason == TIMEOUT)) else None
    case End(_, n) =>
      if !a.timedOut && n == planned && |a.records| == planned
      then Some(Close(h, a, CompleteStream(h, a.F(), a.records), a.timedOut)) else None
    case _ => None
  }

  function Step(h: Harness, red: Redaction, a: Auto, l: Line): Option<Auto> {
    if !h.Has(a.F()) || l.f != a.F() then None
    else match a.phase
         case Between =>
           if h.runner.Framed() then
             if l == Head(a.F(), h.suffix, h.Name(a.F())) then Some(a.(phase := Headed, records := [])) else None
           else
             if l == Begin(a.F(), h.Planned(a.F())) then Some(a.(phase := Open, records := [])) else None
         case Headed =>
           if l == Begin(a.F(), h.Planned(a.F())) then Some(a.(phase := Open)) else None
         case Open => StepOpen(h, red, a, l)
         case Closed(fn) =>
           if l == Done(a.F(), h.Name(a.F()), |a.records|) then Some(Auto(a.finished + [fn], Between, [], a.timedOut)) else None
  }

  function Fold(h: Harness, red: Redaction, a: Auto, ls: seq<Line>): Option<Auto>
    decreases |ls|
  {
    if ls == [] then Some(a)
    else
      var b :- Step(h, red, a, ls[0]);
      Fold(h, red, b, ls[1..])
  }

  /** The stream of a process whose records end in state `a`. */
  function Finish(h: Harness, a: Auto): seq<FunctionStream>
    requires Sound(h, a)
  {
    if a.phase.Between? then a.finished + Unstarted(h, a.F())
    else a.finished + [InterruptedStream(h, a.F(), a.records)] + Unstarted(h, a.F() + 1)
  }

  // ----- what the automaton keeps -----

  predicate Sound(h: Harness, a: Auto) {
    && |a.finished| <= |h.tests|
    && (!a.phase.Between? ==> h.Has(a.F()) && |a.records| <= h.Planned(a.F()))
    && (a.phase.Between? || a.phase.Headed? ==> a.records == [])
    && (a.phase.Open? && a.timedOut ==> a.records == [])
    && ((a.phase.Headed? || a.phase.Closed?) ==> h.runner.Framed())
  }

  lemma StepSound(h: Harness, red: Redaction, a: Auto, l: Line)
    requires Sound(h, a) && Step(h, red, a, l).Some?
    ensures Sound(h, Step(h, red, a, l).value)
  {}

  lemma {:induction false} FoldSound(h: Harness, red: Redaction, a: Auto, ls: seq<Line>)
    requires Sound(h, a) && Fold(h, red, a, ls).Some?
    ensures Sound(h, Fold(h, red, a, ls).value)
    decreases |ls|
  {
    if ls != [] {
      StepSound(h, red, a, ls[0]);
      FoldSound(h, red, Step(h, red, a, ls[0]).value, ls[1..]);
    }
  }

  // ----- what the run still has to write -----

  /** The lines of the function being read that are still to come, given its remaining results. */
  function Pending(h: Harness, a: Auto, rs: seq<CallResult>): (ls: seq<Line>)
    requires Sound(h, a)
    ensures a.phase.Between? <==> ls == []
  {
    var f := a.F();
    var observed := |a.records| + Observations(a.timedOut, rs);
    match a.phase
    case Between => []
    case Headed => [Begin(f, h.Planned(f))] + (BodyLines(f, 0, a.timedOut, rs) + DoneLines(h, f, observed))
    case Open => BodyLines(f, |a.records|, a.timedOut, rs) + DoneLines(h, f, observed)
    case Closed(_) => [Done(f, h.Name(f), |a.records|)]
  }

  /** Whether the functions after the one being read are poisoned. */
  predicate Poison(a: Auto, rs: seq<CallResult>) {
    if a.phase.Between? || a.phase.Closed? then a.timedOut else Poisons(a.timedOut, rs)
  }

  /** The first function that has not begun. */
  function Next(a: Auto): int {
    if a.phase.Between? then a.F() else a.F() + 1
  }

  predicate Fits(h: Harness, a: Auto, rs: seq<CallResult>, runs: seq<seq<CallResult>>) {
    && Sound(h, a)
    && RunsFit(h, Next(a), runs)
    && match a.phase
       case Between => rs == []
       case Headed => ResultsFit(h, rs, h.Planned(a.F()))
       case Open => ResultsFit(h, rs, h.Planned(a.F()) - |a.records|)
       case Closed(_) => rs == []
  }

  // ----- the stream a run has when it ends after m more lines -----

  /** The records among the lines of function f. */
  function RecordsIn(h: Harness, red: Redaction, f: int, ls: seq<Line>): seq<Record>
    requires h.Has(f)
    decreases |ls|
  {
    if ls == [] then []
    else
      (if ls[0].Seen? && 0 <= ls[0].i < h.Planned(f) then [RecordOf(h, red, f, ls[0].obs, ls[0].i)] else [])
      + RecordsIn(h, red, f, ls[1..])
  }

  /** The stream of a function that ran to its last record: the run's own state. */
  function RanStream(h: Harness, red: Redaction, f: int, records: seq<Record>, poisoned: bool, rs: seq<CallResult>): FunctionStream
    requires h.Has(f) && |records| + |rs| == h.Planned(f)
    requires poisoned ==> rs != []
    decreases |rs|
  {
    if poisoned then StoppedStream(h, f, records, POISONED)
    else if rs == [] then CompleteStream(h, f, records)
    else match rs[0]
         case Observed(o) =>
           RanStream(h, red, f, records + [RecordOf(h, red, f, o, |records|)], poisoned, rs[1..])
         case Broke(how) => StoppedStream(h, f, records, Reason(how))
  }

  /** The stream of functions f, f+1, ... when the process ends after m of their lines. */
  function StreamOf(h: Harness, red: Redaction, f: int, poisoned: bool, runs: seq<seq<CallResult>>, m: nat): seq<FunctionStream>
    requires h.Renderable() && RunsFit(h, f, runs)
    decreases |runs|
  {
    if runs == [] || m == 0 then Unstarted(h, f)
    else
      assert ResultsFit(h, runs[0], h.Planned(f + 0));
      var ls := TestLines(h, f, poisoned, runs[0]);
      if m < |ls| then [InterruptedStream(h, f, RecordsIn(h, red, f, ls[..m]))] + Unstarted(h, f + 1)
      else
        RunsTail(h, f, runs);
        [RanStream(h, red, f, [], poisoned, runs[0])] + StreamOf(h, red, f + 1, Poisons(poisoned, runs[0]), runs[1..], m - |ls|)
  }

  lemma RunsTail(h: Harness, f: int, runs: seq<seq<CallResult>>)
    requires RunsFit(h, f, runs) && runs != []
    ensures RunsFit(h, f + 1, runs[1..])
    ensures h.Has(f) && ResultsFit(h, runs[0], h.Planned(f))
  {
    assert ResultsFit(h, runs[0], h.Planned(f + 0));
    forall k | 0 <= k < |runs| - 1
      ensures ResultsFit(h, runs[1..][k], h.Planned(f + 1 + k))
    {
      assert ResultsFit(h, runs[k + 1], h.Planned(f + (k + 1)));
    }
  }

  /** The stream of a run by its first function. */
  lemma StreamStep(h: Harness, red: Redaction, f: int, poisoned: bool, runs: seq<seq<CallResult>>, m: nat)
    requires h.Renderable() && RunsFit(h, f, runs) && runs != []
    ensures h.Has(f) && RunsFit(h, f + 1, runs[1..]) && ResultsFit(h, runs[0], h.Planned(f))
    ensures m == 0 ==> StreamOf(h, red, f, poisoned, runs, m) == Unstarted(h, f)
    ensures 0 < m < |TestLines(h, f, poisoned, runs[0])| ==>
              StreamOf(h, red, f, poisoned, runs, m)
              == [InterruptedStream(h, f, RecordsIn(h, red, f, TestLines(h, f, poisoned, runs[0])[..m]))] + Unstarted(h, f + 1)
    ensures m > 0 && m >= |TestLines(h, f, poisoned, runs[0])| ==>
              StreamOf(h, red, f, poisoned, runs, m)
              == [RanStream(h, red, f, [], poisoned, runs[0])]
                 + StreamOf(h, red, f + 1, Poisons(poisoned, runs[0]), runs[1..], m - |TestLines(h, f, poisoned, runs[0])|)
  {
    hide TestLines, RanStream, RecordsIn, Unstarted;
    RunsTail(h, f, runs);
  }
}

/** Accepted is a prefix of a run. */
module Language {
  import opened Json
  import opened Records
  import opened Emitter
  import opened Automaton

  // ----- what a run still writes, and the stream it has whenever it ends -----

  /**
   A run between two functions, or inside one whose records so far are `records`, that still
   writes `lines` and is in state `final` after them. `poisoned` and `runs` are about the
   functions that have not begun.
   */
  datatype View =
    | Idle(finished: seq<FunctionStream>, poisoned: bool, runs: seq<seq<CallResult>>)
    | Busy(finished: seq<FunctionStream>, records: seq<Record>, lines: seq<Line>, final: FunctionStream,
           poisoned: bool, runs: seq<seq<CallResult>>)
  {
    function F(): int {
      |finished| + 1
    }

    /** The first function that has not begun. */
    function Begins(): int {
      if Idle? then F() else F() + 1
    }

    predicate Fit(h: Harness) {
      h.Renderable() && RunsFit(h, Begins(), runs) && (Busy? ==> h.Has(F()))
    }

    /** Everything the run still has to write. */
    function Todo(h: Harness): seq<Line>
      requires Fit(h)
    {
      (if Idle? then [] else lines) + RunLines(h, Begins(), poisoned, runs)
    }

    /** The stream of the run when the process ends after m more lines. */
    function Future(h: Harness, red: Redaction, m: nat): seq<FunctionStream>
      requires Fit(h)
    {
      if Idle? then finished + StreamOf(h, red, F(), poisoned, runs, m)
      else finished + Onward(h, red, F(), records, lines, final, poisoned, runs, m)
    }
  }

  /** Functions f, f+1, ... when the process ends after m more lines, the first `ls` being those of f. */
  function Onward(h: Harness, red: Redaction, f: int, records: seq<Record>, ls: seq<Line>, final: FunctionStream,
                  poisoned: bool, runs: seq<seq<CallResult>>, m: nat): seq<FunctionStream>
    requires h.Renderable() && h.Has(f) && RunsFit(h, f + 1, runs)
  {
    if m < |ls| then [InterruptedStream(h, f, records + RecordsIn(h, red, f, ls[..m]))] + Unstarted(h, f + 1)
    else [final] + StreamOf(h, red, f + 1, poisoned, runs, m - |ls|)
  }

  /** Moving the first line of f into its records changes nothing. */
  lemma OnwardStep(h: Harness, red: Redaction, f: int, records: seq<Record>, l: Line, ls: seq<Line>, final: FunctionStream,
                   poisoned: bool, runs: seq<seq<CallResult>>, m: nat)
    requires h.Renderable() && h.Has(f) && RunsFit(h, f + 1, runs)
    ensures Onward(h, red, f, records, [l] + ls, final, poisoned, runs, m + 1) ==
            Onward(h, red, f, records + RecordsIn(h, red, f, [l]), ls, final, poisoned, runs, m)
  {
    if m < |ls| {
      assert ([l] + ls)[..m + 1] == [l] + ls[..m];
      RecordsInFirst(h, red, f, l, ls[..m]);
      assert records + RecordsIn(h, red, f, [l] + ls[..m]) == records + RecordsIn(h, red, f, [l]) + RecordsIn(h, red, f, ls[..m]);
    } else {
      assert m + 1 - |[l] + ls| == m - |ls|;
    }
  }

  /** The next line of function f is written: the records take it, or the function is over. */
  predicate Within(h: Harness, red: Redaction, v: View, l: Line, w: View) {
    && v.Fit(h) && v.Busy? && w.Busy?
    && v.lines == [l] + w.lines
    && w == v.(records := v.records + RecordsIn(h, red, v.F(), [l]), lines := w.lines)
  }

  predicate Outward(h: Harness, v: View, l: Line, w: View) {
    v.Fit(h) && v.Busy? && v.lines == [l] && w == Idle(v.finished + [v.final], v.poisoned, v.runs)
  }

  predicate Inward(h: Harness, red: Redaction, v: View, l: Line, w: View) {
    && v.Fit(h) && v.Idle? && v.runs != [] && w.Busy? && !l.Seen?
    && (RunsTail(h, v.F(), v.runs);
        && TestLines(h, v.F(), v.poisoned, v.runs[0]) == [l] + w.lines
        && w == Busy(v.finished, [], w.lines, RanStream(h, red, v.F(), [], v.poisoned, v.runs[0]),
                     Poisons(v.poisoned, v.runs[0]), v.runs[1..]))
  }

  /** Writing `l` leaves the rest of the run, whose stream after m lines is that of v after m + 1. */
  predicate Writes(h: Harness, red: Redaction, v: View, l: Line, w: View) {
    Within(h, red, v, l, w) || Outward(h, v, l, w) || Inward(h, red, v, l, w)
  }

  lemma RecordsInFirst(h: Harness, red: Redaction, f: int, l: Line, ls: seq<Line>)
    requires h.Has(f)
    ensures RecordsIn(h, red, f, [l] + ls) == RecordsIn(h, red, f, [l]) + RecordsIn(h, red, f, ls)
    ensures !l.Seen? ==> RecordsIn(h, red, f, [l]) == []
  {
    assert ([l] + ls)[1..] == ls;
    assert [l][1..] == [];
  }

  lemma TodoWithin(h: Harness, red: Redaction, v: View, l: Line, w: View)
    requires Within(h, red, v, l, w)
    ensures w.Fit(h) && v.Todo(h) == [l] + w.Todo(h)
  {
    var after := RunLines(h, v.Begins(), v.poisoned, v.runs);
    assert [l] + w.lines + after == [l] + (w.lines + after);
  }

  lemma FutureWithin(h: Harness, red: Redaction, v: View, l: Line, w: View, m: nat)
    requires Within(h, red, v, l, w) && w.Fit(h)
    ensures v.Future(h, red, m + 1) == w.Future(h, red, m)
  {
    OnwardStep(h, red, v.F(), v.records, l, w.lines, v.final, v.poisoned, v.runs, m);
  }

  lemma WritesOutward(h: Harness, red: Redaction, v: View, l: Line, w: View, m: nat)
    requires Outward(h, v, l, w)
    ensures w.Fit(h) && v.Todo(h) == [l] + w.Todo(h)
    ensures v.Future(h, red, m + 1) == w.Future(h, red, m)
  {
    assert v.finished + ([v.final] + StreamOf(h, red, v.F() + 1, v.poisoned, v.runs, m)) ==
           w.finished + StreamOf(h, red, v.F() + 1, v.poisoned, v.runs, m);
    assert v.Todo(h) == [l] + w.Todo(h);
  }

  lemma WritesInward(h: Harness, red: Redaction, v: View, l: Line, w: View, m: nat)
    requires Inward(h, red, v, l, w)
    ensures w.Fit(h) && v.Todo(h) == [l] + w.Todo(h)
    ensures v.Future(h, red, m + 1) == w.Future(h, red, m)
  {
    RunsTail(h, v.F(), v.runs);
    assert v.Todo(h) == [l] + w.Todo(h);
    var ls := TestLines(h, v.F(), v.poisoned, v.runs[0]);
    if m < |w.lines| {
      assert ls[..m + 1] == [l] + w.lines[..m];
      RecordsInFirst(h, red, v.F(), l, w.lines[..m]);
      assert w.records + RecordsIn(h, red, v.F(), w.lines[..m]) == RecordsIn(h, red, v.F(), ls[..m + 1]);
    } else {
      assert m + 1 - |ls| == m - |w.lines|;
    }
  }

  lemma WritesOne(h: Harness, red: Redaction, v: View, l: Line, w: View, m: nat)
    requires Writes(h, red, v, l, w)
    ensures v.Fit(h) && w.Fit(h) && v.Todo(h) == [l] + w.Todo(h)
    ensures v.Future(h, red, m + 1) == w.Future(h, red, m)
  {
    if Within(h, red, v, l, w) {
      TodoWithin(h, red, v, l, w);
      FutureWithin(h, red, v, l, w, m);
    } else if Outward(h, v, l, w) {
      WritesOutward(h, red, v, l, w, m);
    } else {
      WritesInward(h, red, v, l, w, m);
    }
  }

  // ----- the automaton along a run -----

  /** A state, the results of the function being read, and the results of the functions after it. */
  datatype Point = Point(a: Auto, rs: seq<CallResult>, runs: seq<seq<CallResult>>) {
    predicate Fit(h: Harness) {
      h.Renderable() && Fits(h, a, rs, runs)
    }

    function View(h: Harness, red: Redaction): (v: View)
      requires Fit(h)
      ensures v.Fit(h)
    {
      if a.phase.Between? then Idle(a.finished, a.timedOut, runs)
      else Busy(a.finished, a.records, Pending(h, a, rs), Final(h, red, this), Poison(a, rs), runs)
    }
  }

  /** The last state of the function being read, when the run ends nowhere in it. */
  function Final(h: Harness, red: Redaction, p: Point): FunctionStream
    requires p.Fit(h) && !p.a.phase.Between?
  {
    if p.a.phase.Closed? then p.a.phase.closing
    else RanStream(h, red, p.a.F(), p.a.records, p.a.timedOut, p.rs)
  }

  /** Reading `l` leads from p to q, and leaves exactly the rest of the run to be read. */
  predicate Leads(h: Harness, red: Redaction, p: Point, l: Line, q: Point) {
    && p.Fit(h) && q.Fit(h)
    && Step(h, red, p.a, l) == Some(q.a)
    && Writes(h, red, p.View(h, red), l, q.View(h, red))
  }

  /** The next line of the run at p. */
  function NextLine(h: Harness, p: Point): Line
    requires p.Fit(h) && (p.a.phase.Between? ==> p.runs != [])
  {
    var f, i := p.a.F(), |p.a.records|;
    match p.a.phase
    case Between => if h.runner.Framed() then Head(f, h.suffix, h.Name(f)) else Begin(f, h.Planned(f))
    case Headed => Begin(f, h.Planned(f))
    case Open =>
      if p.a.timedOut then Stop(f, 0, POISONED)
      else if p.rs == [] then End(f, i)
      else ResultLine(f, i, p.rs[0])
    case Closed(_) => Done(f, h.Name(f), i)
  }

  /** The point after that line. */
  function NextPoint(h: Harness, red: Redaction, p: Point): Point
    requires p.Fit(h) && (p.a.phase.Between? ==> p.runs != [])
  {
    var a, f := p.a, p.a.F();
    match a.phase
    case Between => Point(a.(phase := if h.runner.Framed() then Headed else Open), p.runs[0], p.runs[1..])
    case Headed => Point(a.(phase := Open), p.rs, p.runs)
    case Open =>
      if !a.timedOut && p.rs != [] && p.rs[0].Observed? then
        Point(a.(records := a.records + [RecordOf(h, red, f, p.rs[0].obs, |a.records|)]), p.rs[1..], p.runs)
      else Point(Close(h, a, Final(h, red, p), Poison(a, p.rs)), [], p.runs)
    case Closed(fn) => Point(Auto(a.finished + [fn], Between, [], a.timedOut), [], p.runs)
  }

  lemma AdvanceBetween(h: Harness, red: Redaction, p: Point)
    requires p.Fit(h) && p.a.phase.Between? && p.runs != []
    ensures Leads(h, red, p, NextLine(h, p), NextPoint(h, red, p))
  {
    var l, q := NextLine(h, p), NextPoint(h, red, p);
    RunsTail(h, p.a.F(), p.runs);
    assert TestLines(h, p.a.F(), p.a.timedOut, q.rs) == [l] + Pending(h, q.a, q.rs);
    assert Inward(h, red, p.View(h, red), l, q.View(h, red));
  }

  lemma AdvanceHeaded(h: Harness, red: Redaction, p: Point)
    requires p.Fit(h) && p.a.phase.Headed?
    ensures Leads(h, red, p, NextLine(h, p), NextPoint(h, red, p))
  {
    var l, q := NextLine(h, p), NextPoint(h, red, p);
    RecordsInFirst(h, red, p.a.F(), l, []);
    assert p.a.records == [] && Pending(h, p.a, p.rs) == [l] + Pending(h, q.a, q.rs);
    assert Final(h, red, p) == Final(h, red, q);
    assert Within(h, red, p.View(h, red), l, q.View(h, red));
  }

  lemma AdvanceClosed(h: Harness, red: Redaction, p: Point)
    requires p.Fit(h) && p.a.phase.Closed?
    ensures Leads(h, red, p, NextLine(h, p), NextPoint(h, red, p))
  {
    assert Outward(h, p.View(h, red), NextLine(h, p), NextPoint(h, red, p).View(h, red));
  }

  lemma AdvanceObserved(h: Harness, red: Redaction, p: Point)
    requires p.Fit(h) && p.a.phase.Open? && !p.a.timedOut && p.rs != [] && p.rs[0].Observed?
    ensures Leads(h, red, p, NextLine(h, p), NextPoint(h, red, p))
  {
    hide RecordOf;
    var l, q := NextLine(h, p), NextPoint(h, red, p);
    assert Producible(h, p.rs[0]);
    assert RecordsIn(h, red, p.a.F(), [l]) == [RecordOf(h, red, p.a.F(), p.rs[0].obs, |p.a.records|)] by {
      assert [l][1..] == [];
    }
    assert Pending(h, p.a, p.rs) == [l] + Pending(h, q.a, q.rs);
    assert Within(h, red, p.View(h, red), l, q.View(h, red));
  }

  /** A record that ends the function, in either format. */
  lemma AdvanceClosing(h: Harness, red: Redaction, p: Point)
    requires p.Fit(h) && p.a.phase.Open? && (p.a.timedOut || p.rs == [] || p.rs[0].Broke?)
    ensures Leads(h, red, p, NextLine(h, p), NextPoint(h, red, p))
  {
    var l, q := NextLine(h, p), NextPoint(h, red, p);
    ReasonsDiffer();
    if !p.a.timedOut && p.rs != [] {
      assert Producible(h, p.rs[0]);
    }
    assert BodyLines(p.a.F(), |p.a.records|, p.a.timedOut, p.rs) == [l];
    RecordsInFirst(h, red, p.a.F(), l, []);
    assert Step(h, red, p.a, l) == Some(q.a);
    if h.runner.Framed() {
      assert Within(h, red, p.View(h, red), l, q.View(h, red));
    } else {
      assert Outward(h, p.View(h, red), l, q.View(h, red));
    }
  }

  /** Every point of a run with lines to come leads to the next one. */
  lemma Advance(h: Harness, red: Redaction, p: Point)
    requires p.Fit(h) && (p.a.phase.Between? ==> p.runs != [])
    ensures Leads(h, red, p, NextLine(h, p), NextPoint(h, red, p))
  {
    match p.a.phase
    case Between => AdvanceBetween(h, red, p);
    case Headed => AdvanceHeaded(h, red, p);
    case Open =>
      if !p.a.timedOut && p.rs != [] && p.rs[0].Observed? {
        AdvanceObserved(h, red, p);
      } else {
        AdvanceClosing(h, red, p);
      }
    case Closed(_) => AdvanceClosed(h, red, p);
  }

  /** One line of a run: it is read, and the rest and its streams are those of the next point. */
  lemma OneLine(h: Harness, red: Redaction, p: Point, m: nat)
    requires p.Fit(h) && (p.a.phase.Between? ==> p.runs != [])
    ensures var l, q := NextLine(h, p), NextPoint(h, red, p);
            && q.Fit(h) && Step(h, red, p.a, l) == Some(q.a)
            && Todo(h, red, p) == [l] + Todo(h, red, q)
            && Future(h, red, p, m + 1) == Future(h, red, q, m)
  {
    Advance(h, red, p);
    var l, q := NextLine(h, p), NextPoint(h, red, p);
    WritesOne(h, red, p.View(h, red), l, q.View(h, red), m);
  }

  function Todo(h: Harness, red: Redaction, p: Point): seq<Line>
    requires p.Fit(h)
  {
    p.View(h, red).Todo(h)
  }

  function Future(h: Harness, red: Redaction, p: Point, m: nat): seq<FunctionStream>
    requires p.Fit(h)
  {
    p.View(h, red).Future(h, red, m)
  }

  /**
   Reading the first m lines of the rest of a run never fails, and finishing there gives the
   stream of the run that ends there.
   */
  predicate EndsAs(h: Harness, end: Option<Auto>, stream: seq<FunctionStream>) {
    end.Some? && Sound(h, end.value) && Finish(h, end.value) == stream
  }

  lemma {:induction false} Follow(h: Harness, red: Redaction, p: Point, ls: seq<Line>)
    requires p.Fit(h) && ls <= Todo(h, red, p)
    ensures EndsAs(h, Fold(h, red, p.a, ls), Future(h, red, p, |ls|))
    decreases |ls|
  {
    if ls == [] {
      FinishNow(h, red, p);
    } else {
      OneLine(h, red, p, |ls| - 1);
      var q := NextPoint(h, red, p);
      assert ls[0] == NextLine(h, p);
      assert ls[1..] <= Todo(h, red, q);
      Follow(h, red, q, ls[1..]);
    }
  }

  lemma FinishNow(h: Harness, red: Redaction, p: Point)
    requires p.Fit(h)
    ensures Finish(h, p.a) == Future(h, red, p, 0)
  {
    if !p.a.phase.Between? {
      var ls := Pending(h, p.a, p.rs);
      assert ls[..0] == [];
      assert p.a.records + [] == p.a.records;
    }
  }

  // ----- every accepted stream is explained by a run -----

  /** Results that fit a function of `count` inputs. */
  function AnyResults(count: nat): (rs: seq<CallResult>)
    ensures |rs| == count && forall k :: 0 <= k < count ==> rs[k] == Broke(Aborted)
  {
    seq(count, k => Broke(Aborted))
  }

  lemma AnyRuns(h: Harness, f: int) returns (runs: seq<seq<CallResult>>)
    requires 1 <= f <= |h.tests| + 1
    ensures RunsFit(h, f, runs)
  {
    var count := |h.tests| + 1 - f;
    runs := seq(count, k requires 0 <= k < count => AnyResults(h.Planned(f + k)));
    forall k | 0 <= k < count
      ensures ResultsFit(h, runs[k], h.Planned(f + k))
    {
      assert runs[k] == AnyResults(h.Planned(f + k));
    }
  }

  lemma RunsCons(h: Harness, f: int, rs: seq<CallResult>, runs: seq<seq<CallResult>>)
    requires 1 <= f <= |h.tests| && ResultsFit(h, rs, h.Planned(f)) && RunsFit(h, f + 1, runs)
    ensures RunsFit(h, f, [rs] + runs)
  {
    forall k | 0 <= k < 1 + |runs|
      ensures ResultsFit(h, ([rs] + runs)[k], h.Planned(f + k))
    {
      if k > 0 {
        assert ResultsFit(h, runs[k - 1], h.Planned(f + 1 + (k - 1)));
      }
    }
  }

  /** The evaluation that a stop record other than "poisoned" tells of. */
  function HowOf(reason: string): (how: CallState)
    ensures !how.Finished?
    ensures reason == TIMEOUT || reason == GOEXIT || reason == ABORT ==> Reason(how) == reason
  {
    ReasonsDiffer();
    if reason == TIMEOUT then TimedOut else if reason == GOEXIT then Exited else Aborted
  }

  /** The results at state `a`, given the line read there and the point it leads to. */
  function Before(h: Harness, a: Auto, l: Line, q: Point): Point
    requires h.Renderable() && Sound(h, a)
  {
    match a.phase
    case Between => Point(a, [], [q.rs] + q.runs)
    case Headed => Point(a, q.rs, q.runs)
    case Open =>
      var left := h.Planned(a.F()) - |a.records|;
      var rs := if left == 0 then [] else if a.timedOut then AnyResults(left)
                else if l.Seen? then [Observed(l.obs)] + q.rs
                else if l.Stop? then [Broke(HowOf(l.reason))] + AnyResults(left - 1)
                else [];
      Point(a, rs, q.runs)
    case Closed(_) => Point(a, [], q.runs)
  }

  lemma BeforeBetween(h: Harness, red: Redaction, a: Auto, l: Line, q: Point)
    requires h.Renderable() && Sound(h, a) && a.phase.Between? && q.Fit(h) && Step(h, red, a, l) == Some(q.a)
    ensures var p := Before(h, a, l, q);
            p.Fit(h) && p.runs != [] && NextLine(h, p) == l && NextPoint(h, red, p) == q
  {
    RunsCons(h, a.F(), q.rs, q.runs);
    assert ([q.rs] + q.runs)[1..] == q.runs;
  }

  lemma BeforeOpen(h: Harness, red: Redaction, a: Auto, l: Line, q: Point)
    requires h.Renderable() && Sound(h, a) && a.phase.Open? && q.Fit(h) && Step(h, red, a, l) == Some(q.a)
    ensures var p := Before(h, a, l, q);
            p.Fit(h) && NextLine(h, p) == l && NextPoint(h, red, p) == q
  {
    ReasonsDiffer();
    var p := Before(h, a, l, q);
    if l.Seen? {
      assert p.rs[1..] == q.rs;
      forall k | 0 <= k < |p.rs| ensures Producible(h, p.rs[k]) {
        assert k > 0 ==> p.rs[k] == q.rs[k - 1];
      }
    }
  }

  lemma BeforeFramed(h: Harness, red: Redaction, a: Auto, l: Line, q: Point)
    requires h.Renderable() && Sound(h, a) && (a.phase.Headed? || a.phase.Closed?)
    requires q.Fit(h) && Step(h, red, a, l) == Some(q.a)
    ensures var p := Before(h, a, l, q);
            p.Fit(h) && NextLine(h, p) == l && NextPoint(h, red, p) == q
  {}

  /** Every line the automaton reads is the next line of a run that leads to the same place. */
  lemma Explained(h: Harness, red: Redaction, a: Auto, l: Line, q: Point)
    requires h.Renderable() && Sound(h, a) && q.Fit(h) && Step(h, red, a, l) == Some(q.a)
    ensures var p := Before(h, a, l, q);
            p.a == a && p.Fit(h) && Todo(h, red, p) == [l] + Todo(h, red, q)
  {
    match a.phase {
      case Between => BeforeBetween(h, red, a, l, q);
      case Open => BeforeOpen(h, red, a, l, q);
      case _ => BeforeFramed(h, red, a, l, q);
    }
    OneLine(h, red, Before(h, a, l, q), 0);
  }

  lemma {:induction false} Explain(h: Harness, red: Redaction, a: Auto, ls: seq<Line>) returns (p: Point)
    requires h.Renderable() && Sound(h, a) && Fold(h, red, a, ls).Some?
    ensures p.a == a && p.Fit(h) && ls <= Todo(h, red, p)
    decreases |ls|
  {
    if ls == [] {
      p := AnyPoint(h, a);
    } else {
      StepSound(h, red, a, ls[0]);
      var q := Explain(h, red, Step(h, red, a, ls[0]).value, ls[1..]);
      Explained(h, red, a, ls[0], q);
      p := Before(h, a, ls[0], q);
      assert ls == [ls[0]] + ls[1..];
    }
  }

  lemma AnyPoint(h: Harness, a: Auto) returns (p: Point)
    requires h.Renderable() && Sound(h, a)
    ensures p.a == a && p.Fit(h)
  {
    var rs := match a.phase
      case Between => []
      case Headed => AnyResults(h.Planned(a.F()))
      case Open => AnyResults(h.Planned(a.F()) - |a.records|)
      case Closed(_) => [];
    var runs := AnyRuns(h, Next(a));
    p := Point(a, rs, runs);
  }

  // ----- the theorem -----

  /** The lines of a whole run of the harness. */
  function Run(h: Harness, runs: seq<seq<CallResult>>): seq<Line>
    requires h.Renderable() && RunsFit(h, 1, runs)
  {
    RunLines(h, 1, false, runs)
  }

  /** The automaton reads `ls` without an error. */
  predicate Accepts(h: Harness, red: Redaction, ls: seq<Line>) {
    ls != [] && Fold(h, red, START, ls).Some?
  }

  /**
   A stream is accepted exactly when it is a nonempty prefix, cut at a line, of a run: death at any
   line, timeouts and the poisoning after them included. The data of an observation are any that
   pass its check; Realized says which of them two evaluations can give.
   */
  lemma AcceptedIffPrefixOfRun(h: Harness, red: Redaction, ls: seq<Line>)
    requires h.Renderable()
    ensures Accepts(h, red, ls) <==> ls != [] && exists runs :: RunsFit(h, 1, runs) && ls <= Run(h, runs)
  {
    if Accepts(h, red, ls) {
      var runs := AcceptedIsPrefix(h, red, ls);
    }
    if ls != [] && exists runs :: RunsFit(h, 1, runs) && ls <= Run(h, runs) {
      var runs :| RunsFit(h, 1, runs) && ls <= Run(h, runs);
      StatesOfRun(h, red, runs, ls);
    }
  }

  lemma AcceptedIsPrefix(h: Harness, red: Redaction, ls: seq<Line>) returns (runs: seq<seq<CallResult>>)
    requires h.Renderable() && Accepts(h, red, ls)
    ensures RunsFit(h, 1, runs) && ls <= Run(h, runs)
  {
    var p := Explain(h, red, START, ls);
    runs := p.runs;
    assert p == Point(START, [], runs);
    TodoAtStart(h, red, runs, 0);
  }

  lemma TodoAtStart(h: Harness, red: Redaction, runs: seq<seq<CallResult>>, m: nat)
    requires h.Renderable() && RunsFit(h, 1, runs)
    ensures Point(START, [], runs).Fit(h)
    ensures Todo(h, red, Point(START, [], runs)) == Run(h, runs)
    ensures Future(h, red, Point(START, [], runs), m) == StreamOf(h, red, 1, false, runs, m)
  {
    var p := Point(START, [], runs);
    assert [] + Run(h, runs) == Run(h, runs);
    assert Todo(h, red, p) == Run(h, runs);
  }

  /** The functions of an accepted stream have the states of the run it was cut from. */
  lemma StatesOfRun(h: Harness, red: Redaction, runs: seq<seq<CallResult>>, ls: seq<Line>)
    requires h.Renderable() && RunsFit(h, 1, runs) && ls <= Run(h, runs)
    ensures EndsAs(h, Fold(h, red, START, ls), StreamOf(h, red, 1, false, runs, |ls|))
  {
    TodoAtStart(h, red, runs, |ls|);
    Follow(h, red, Point(START, [], runs), ls);
  }
}

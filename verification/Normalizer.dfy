/** Normalize and normalizeScript: the raw bytes of a run become its stream, or are refused. */
module Normalizer {
  import opened Utf8
  import opened Json
  import opened Records
  import opened Wire
  import opened Emitter
  import opened Automaton
  import Language

  function ParseAll(texts: seq<string>): (r: Option<seq<Line>>)
    ensures r.Some? ==> |r.value| == |texts|
    decreases |texts|
  {
    if texts == [] then Some([])
    else
      var l :- ParseLine(texts[0]);
      var ls :- ParseAll(texts[1..]);
      Some([l] + ls)
  }

  /** Reading texts one by one: every text must be a record the automaton accepts. */
  function Reads(h: Harness, red: Redaction, a: Auto, texts: seq<string>): Option<Auto>
    decreases |texts|
  {
    if texts == [] then Some(a)
    else
      var l :- ParseLine(texts[0]);
      var b :- Step(h, red, a, l);
      Reads(h, red, b, texts[1..])
  }

  lemma {:induction false} ReadsIsFold(h: Harness, red: Redaction, a: Auto, texts: seq<string>)
    ensures Reads(h, red, a, texts) ==
            if ParseAll(texts).Some? then Fold(h, red, a, ParseAll(texts).value) else None
    decreases |texts|
  {
    if texts != [] && ParseLine(texts[0]).Some? {
      var l := ParseLine(texts[0]).value;
      var rest := ParseAll(texts[1..]);
      if rest.Some? {
        assert ([l] + rest.value)[1..] == rest.value;
      }
      var b := Step(h, red, a, l);
      if b.Some? {
        ReadsIsFold(h, red, b.value, texts[1..]);
      }
    }
  }

  /** Harnesses as Render builds them: their framing records are valid text, and lengths fit an int. */
  predicate Rendered(h: Harness) {
    && h.Renderable() && Valid(h.suffix)
    && forall k :: 0 <= k < |h.tests| ==> Valid(h.tests[k].name) && Int64(|h.tests[k].inputs|)
  }

  predicate CompleteText(payload: string) {
    payload != [] && Valid(payload) && payload[|payload| - 1] == '\n'
  }

  /** The functions of an accepted payload; a normalized stream must also survive redaction. */
  function Normal(h: Harness, red: Redaction, payload: string): Option<seq<FunctionStream>>
    requires h.Renderable()
  {
    if !CompleteText(payload) then None
    else
      var end :- Reads(h, red, START, Lines(payload));
      SoundReads(h, red, payload);
      Some(Finish(h, end))
  }

  lemma SoundReads(h: Harness, red: Redaction, payload: string)
    requires h.Renderable() && payload != [] && Reads(h, red, START, Lines(payload)).Some?
    ensures Sound(h, Reads(h, red, START, Lines(payload)).value)
  {
    ReadsIsFold(h, red, START, Lines(payload));
    FoldSound(h, red, START, ParseAll(Lines(payload)).value);
  }

  // ----- the line limit -----

  /** The records one function can have besides its observations, as the limit counts them. */
  function Extra(h: Harness): nat {
    if h.runner.Framed() then 5 else 3
  }

  function LineLimit(h: Harness, f: int): nat
    requires 1 <= f <= |h.tests| + 1
    decreases |h.tests| + 1 - f
  {
    if f > |h.tests| then 0 else h.Planned(f) + Extra(h) + LineLimit(h, f + 1)
  }

  lemma {:induction false} InputLinesShort(f: int, k: nat, rs: seq<CallResult>)
    ensures |InputLines(f, k, rs)| <= |rs| + 1
    decreases |rs|
  {
    if rs != [] {
      InputLinesShort(f, k + 1, rs[1..]);
    }
  }

  lemma {:induction false} RunIsShort(h: Harness, f: int, poisoned: bool, runs: seq<seq<CallResult>>)
    requires RunsFit(h, f, runs)
    ensures |RunLines(h, f, poisoned, runs)| <= LineLimit(h, f)
    decreases |runs|
  {
    if runs != [] {
      RunsTail(h, f, runs);
      InputLinesShort(f, 0, runs[0]);
      RunIsShort(h, f + 1, Poisons(poisoned, runs[0]), runs[1..]);
    }
  }

  /** The limit on the number of lines is implied by the order of the records. */
  lemma LimitNeverTrips(h: Harness, red: Redaction, texts: seq<string>)
    requires h.Renderable() && texts != [] && Reads(h, red, START, texts).Some?
    ensures |texts| <= LineLimit(h, 1)
  {
    ReadsIsFold(h, red, START, texts);
    var ls := ParseAll(texts).value;
    var runs := Language.AcceptedIsPrefix(h, red, ls);
    RunIsShort(h, 1, false, runs);
  }

  // ----- the functions while they are read -----

  function ReadingStream(h: Harness, f: int, records: seq<Record>): FunctionStream
    requires h.Has(f)
  {
    FunctionStream(h.Name(f), h.Planned(f), Reading, "", -1, "", records)
  }

  /** The function table in state `a`: finished ones, the one being read, the rest not started. */
  predicate Laid(h: Harness, a: Auto, functions: seq<FunctionStream>) {
    && Sound(h, a)
    && |functions| == |h.tests|
    && functions[..|a.finished|] == a.finished
    && (!a.phase.Between? ==> functions[|a.finished|] == ReadingStream(h, a.F(), a.records))
    && forall k :: Next(a) <= k + 1 <= |h.tests| ==> functions[k] == NotStartedStream(h, k + 1)
  }

  lemma {:induction false} UnstartedAt(h: Harness, f: int, functions: seq<FunctionStream>)
    requires 1 <= f <= |h.tests| + 1 && |functions| == |h.tests|
    requires forall k :: f <= k + 1 <= |h.tests| ==> functions[k] == NotStartedStream(h, k + 1)
    ensures functions[f - 1..] == Unstarted(h, f)
    decreases |h.tests| + 1 - f
  {
    if f <= |h.tests| {
      UnstartedAt(h, f + 1, functions);
      assert functions[f - 1..] == [functions[f - 1]] + functions[f..];
    }
  }

  lemma LaidFinish(h: Harness, a: Auto, functions: seq<FunctionStream>)
    requires Laid(h, a, functions)
    ensures a.phase.Between? ==> functions == Finish(h, a)
    ensures !a.phase.Between? ==>
              functions[|a.finished| := InterruptedStream(h, a.F(), a.records)] == Finish(h, a)
  {
    UnstartedAt(h, Next(a), functions);
    if a.phase.Between? {
      assert functions == functions[..|a.finished|] + functions[|a.finished|..];
    } else {
      var after := functions[|a.finished| := InterruptedStream(h, a.F(), a.records)];
      assert after == functions[..|a.finished|] + [after[|a.finished|]] + functions[a.F()..];
    }
  }

  /**
   One record of an open function: `fn` with the observation added, or the closed function.
   A refused record gives None.
   */
  method ReadRecord(h: Harness, red: Redaction, f: int, fn: FunctionStream, l: Line, timedOut: bool)
    returns (next: Option<FunctionStream>, closes: bool, timeout: bool)
    requires h.Has(f) && l.f == f && fn == ReadingStream(h, f, fn.records)
    ensures forall a: Auto :: a.F() == f && a.phase.Open? && a.records == fn.records && a.timedOut == timedOut ==>
              Step(h, red, a, l) ==
              if next.None? then None
              else if closes then Some(Close(h, a, next.value, timeout))
              else Some(a.(records := next.value.records))
    ensures next.Some? && !closes ==> next.value == ReadingStream(h, f, next.value.records) && timeout == timedOut
  {
    next, closes, timeout := None, false, timedOut;
    var i := |fn.records|;
    match l {
      case Seen(_, n, o) =>
        if timedOut || n != i || i >= fn.planned || !Shaped(h.display, o) {
          return;
        }
        next := Some(fn.(records := fn.records + [RecordOf(h, red, f, o, i)]));
      case Stop(_, n, reason) =>
        if n != i || i >= fn.planned || !StopAllowed(h, timedOut, n, reason) {
          return;
        }
        next := Some(fn.(state := Stopped, stop := reason, at := i, atCall := h.tests[f - 1].inputs[i]));
        closes, timeout := true, timedOut || reason == TIMEOUT;
      case End(_, n) =>
        if timedOut || n != fn.planned || i != fn.planned {
          return;
        }
        next, closes := Some(fn.(state := Complete)), true;
      case _ =>
    }
  }

  /** The table before the first line. */
  method NewTable(h: Harness) returns (functions: seq<FunctionStream>)
    requires h.Renderable()
    ensures Laid(h, START, functions)
  {
    functions := seq(|h.tests|, k requires 0 <= k < |h.tests| => NotStartedStream(h, k + 1));
  }

  method Limit(h: Harness) returns (limit: nat)
    ensures limit == LineLimit(h, 1)
  {
    limit := 0;
    for k := 0 to |h.tests|
      invariant limit + LineLimit(h, k + 1) == LineLimit(h, 1)
    {
      limit := limit + |h.tests[k].inputs| + Extra(h);
    }
  }

  lemma ReadsNext(h: Harness, red: Redaction, a: Auto, texts: seq<string>, i: nat)
    requires i < |texts|
    ensures Reads(h, red, a, texts[i..]) ==
            match ParseLine(texts[i])
            case None => None
            case Some(l) =>
              match Step(h, red, a, l)
              case None => None
              case Some(b) => Reads(h, red, b, texts[i + 1..])
  {
    assert texts[i..][0] == texts[i] && texts[i..][1..] == texts[i + 1..];
  }

  /** Updating the entry of the function being read, or of the next one, keeps the table laid out. */
  lemma TableUpdate(h: Harness, a: Auto, b: Auto, functions: seq<FunctionStream>, fn: FunctionStream)
    requires Laid(h, a, functions) && h.Has(a.F()) && Sound(h, b)
    requires if b.phase.Between? then b.finished == a.finished + [fn]
             else b.finished == a.finished && fn == ReadingStream(h, b.F(), b.records)
    ensures Laid(h, b, functions[|a.finished| := fn])
  {
    var after := functions[|a.finished| := fn];
    if b.phase.Between? {
      assert after[..|b.finished|] == functions[..|a.finished|] + [fn];
    } else {
      assert after[..|b.finished|] == functions[..|a.finished|];
    }
  }

  // ----- Normalize: the stream of a Go harness -----

  /** The state of the loop over the lines, and the automaton state it stands for. */
  predicate InGoLoop(h: Harness, a: Auto, functions: seq<FunctionStream>, current: int, open: bool, timedOut: bool) {
    && !h.runner.Framed()
    && Laid(h, a, functions)
    && current == Next(a) - 1
    && open == a.phase.Open?
    && timedOut == a.timedOut
  }

  method TakeBegin(h: Harness, red: Redaction, l: Line, functions: seq<FunctionStream>, current: int, open: bool, timedOut: bool,
                   ghost a: Auto)
    returns (ok: bool, table: seq<FunctionStream>, ghost b: Auto)
    requires InGoLoop(h, a, functions, current, open, timedOut) && l.Begin?
    ensures Step(h, red, a, l) == if ok then Some(b) else None
    ensures ok ==> InGoLoop(h, b, table, l.f, true, timedOut)
  {
    table, b := functions, a;
    if open || l.f != current + 1 || l.f > |h.tests| || l.n != |h.tests[l.f - 1].inputs| {
      return false, table, b;
    }
    var fn := functions[l.f - 1].(state := Reading);
    table := functions[l.f - 1 := fn];
    b := a.(phase := Open, records := []);
    TableUpdate(h, a, b, functions, fn);
    return true, table, b;
  }

  method TakeRecord(h: Harness, red: Redaction, l: Line, functions: seq<FunctionStream>, current: int, open: bool, timedOut: bool,
                    ghost a: Auto)
    returns (ok: bool, table: seq<FunctionStream>, closes: bool, timeout: bool, ghost b: Auto)
    requires InGoLoop(h, a, functions, current, open, timedOut) && !l.Begin?
    ensures Step(h, red, a, l) == if ok then Some(b) else None
    ensures ok ==> open && InGoLoop(h, b, table, current, !closes, timeout)
  {
    table, closes, timeout, b := functions, false, timedOut, a;
    if !open || l.f != current {
      ok := false;
      return;
    }
    var next, c, t := ReadRecord(h, red, current, functions[current - 1], l, timedOut);
    ok := next.Some?;
    if ok {
      b := Step(h, red, a, l).value;
      StepSound(h, red, a, l);
      TableUpdate(h, a, b, functions, next.value);
      table, closes, timeout := functions[current - 1 := next.value], c, t;
    }
  }

  /** The function being read when the records end was interrupted. */
  method Interrupt(h: Harness, functions: seq<FunctionStream>, current: int, ghost a: Auto) returns (table: seq<FunctionStream>)
    requires Laid(h, a, functions) && !a.phase.Between? && current == a.F()
    ensures table == Finish(h, a)
  {
    LaidFinish(h, a, functions);
    var fn := functions[current - 1];
    fn := fn.(state := Interrupted, at := |fn.records|);
    if fn.at < fn.planned {
      fn := fn.(atCall := h.tests[current - 1].inputs[fn.at]);
    }
    table := functions[current - 1 := fn];
  }

  method Normalize(h: Harness, red: Redaction, payload: string) returns (r: Option<seq<FunctionStream>>)
    requires Rendered(h)
    ensures r == Normal(h, red, payload)
  {
    if h.runner.Framed() {
      r := NormalizeScript(h, red, payload);
      return;
    }
    if payload == [] || !Valid(payload) || payload[|payload| - 1] != '\n' {
      return None;
    }
    var texts := Lines(payload);
    var limit := Limit(h);
    if |texts| > limit {
      if Reads(h, red, START, texts).Some? {
        LimitNeverTrips(h, red, texts);
      }
      return None;
    }
    var functions := NewTable(h);
    var current, open, timedOut := 0, false, false;
    ghost var a := START;
    assert texts[0..] == texts;
    for number := 0 to |texts|
      invariant InGoLoop(h, a, functions, current, open, timedOut)
      invariant Reads(h, red, START, texts) == Reads(h, red, a, texts[number..])
    {
      ReadsNext(h, red, a, texts, number);
      var parsed := ParseLine(texts[number]);
      if parsed.None? {
        return None;
      }
      var ok;
      if parsed.value.Begin? {
        ok, functions, a := TakeBegin(h, red, parsed.value, functions, current, open, timedOut, a);
        current, open := parsed.value.f, true;
      } else {
        var closes;
        ok, functions, closes, timedOut, a := TakeRecord(h, red, parsed.value, functions, current, open, timedOut, a);
        open := !closes;
      }
      if !ok {
        return None;
      }
    }
    SoundReads(h, red, payload);
    LaidFinish(h, a, functions);
    if open {
      functions := Interrupt(h, functions, current, a);
    }
    return Some(functions);
  }

  // ----- normalizeScript: the stream of a script harness -----

  /** After its head, while its records are open, after its end or stop, or between functions. */
  datatype ScriptPhase = BetweenTests | AfterHead | InTest | AfterEnd

  predicate InScriptLoop(h: Harness, a: Auto, functions: seq<FunctionStream>, phase: ScriptPhase, current: int,
                         closing: FunctionStream, timedOut: bool) {
    && h.runner.Framed()
    && Laid(h, a, functions)
    && current == Next(a) - 1
    && timedOut == a.timedOut
    && match phase
       case BetweenTests => a.phase.Between?
       case AfterHead => a.phase.Headed?
       case InTest => a.phase.Open?
       case AfterEnd => a.phase == Closed(closing)
  }

  /** scriptHeadLine and scriptDoneLine are the canonical forms of the framing records. */
  lemma FramingLine(h: Harness, text: string, l: Line)
    requires Rendered(h) && WellFormed(l)
    ensures text == Canon(l) ==> ParseLine(text) == Some(l)
    ensures ParseLine(text) == Some(l) ==> text == Canon(l)
  {
    ParseLineExact(text, l);
  }

  /** The head record of the next function, compared byte for byte. */
  method TakeHead(h: Harness, red: Redaction, text: string, functions: seq<FunctionStream>, current: int,
                  closing: FunctionStream, timedOut: bool, ghost a: Auto)
    returns (ok: bool, table: seq<FunctionStream>, ghost b: Auto)
    requires Rendered(h) && InScriptLoop(h, a, functions, BetweenTests, current, closing, timedOut)
    ensures ok ==> ParseLine(text).Some? && Step(h, red, a, ParseLine(text).value) == Some(b)
    ensures !ok ==> ParseLine(text).None? || Step(h, red, a, ParseLine(text).value).None?
    ensures ok ==> InScriptLoop(h, b, table, AfterHead, current + 1, closing, timedOut)
  {
    table, b := functions, a;
    var next := current + 1;
    if next > |h.tests| {
      return false, table, b;
    }
    var head := Head(next, h.suffix, h.tests[next - 1].name);
    FramingLine(h, text, head);
    if text != Canon(head) {
      return false, table, b;
    }
    var fn := functions[next - 1].(state := Reading);
    table := functions[next - 1 := fn];
    b := a.(phase := Headed, records := []);
    TableUpdate(h, a, b, functions, fn);
    return true, table, b;
  }

  /** The done record of the function that ended, compared byte for byte. */
  method TakeDone(h: Harness, red: Redaction, text: string, functions: seq<FunctionStream>, current: int,
                  closing: FunctionStream, timedOut: bool, ghost a: Auto)
    returns (ok: bool, table: seq<FunctionStream>, ghost b: Auto)
    requires Rendered(h) && InScriptLoop(h, a, functions, AfterEnd, current, closing, timedOut)
    ensures ok ==> ParseLine(text).Some? && Step(h, red, a, ParseLine(text).value) == Some(b)
    ensures !ok ==> ParseLine(text).None? || Step(h, red, a, ParseLine(text).value).None?
    ensures ok ==> InScriptLoop(h, b, table, BetweenTests, current, closing, timedOut)
  {
    table, b := functions, a;
    var fn := functions[current - 1];
    var done := Done(current, fn.test, |fn.records|);
    FramingLine(h, text, done);
    if text != Canon(done) {
      return false, table, b;
    }
    table := functions[current - 1 := closing];
    b := Auto(a.finished + [closing], Between, [], a.timedOut);
    TableUpdate(h, a, b, functions, closing);
    return true, table, b;
  }

  method TakeScriptBegin(h: Harness, red: Redaction, l: Line, functions: seq<FunctionStream>, current: int,
                         closing: FunctionStream, timedOut: bool, ghost a: Auto)
    returns (ok: bool, ghost b: Auto)
    requires InScriptLoop(h, a, functions, AfterHead, current, closing, timedOut)
    ensures Step(h, red, a, l) == if ok then Some(b) else None
    ensures ok ==> InScriptLoop(h, b, functions, InTest, current, closing, timedOut)
  {
    ok := l.f == current && l.Begin? && l.n == |h.tests[current - 1].inputs|;
    b := a.(phase := Open);
  }

  method TakeScriptRecord(h: Harness, red: Redaction, l: Line, functions: seq<FunctionStream>, current: int,
                          closing: FunctionStream, timedOut: bool, ghost a: Auto)
    returns (ok: bool, table: seq<FunctionStream>, phase: ScriptPhase, closed: FunctionStream, timeout: bool, ghost b: Auto)
    requires InScriptLoop(h, a, functions, InTest, current, closing, timedOut)
    ensures Step(h, red, a, l) == if ok then Some(b) else None
    ensures ok ==> InScriptLoop(h, b, table, phase, current, closed, timeout)
  {
    table, phase, closed, timeout, b := functions, InTest, closing, timedOut, a;
    if l.f != current {
      ok := false;
      return;
    }
    var next, closes, t := ReadRecord(h, red, current, functions[current - 1], l, timedOut);
    ok := next.Some?;
    if !ok {
      return;
    }
    b := Step(h, red, a, l).value;
    StepSound(h, red, a, l);
    if closes {
      phase, closed, timeout := AfterEnd, next.value, t;
    } else {
      TableUpdate(h, a, b, functions, next.value);
      table := functions[current - 1 := next.value];
    }
  }

  /** A record between the head and done records of a function. */
  method TakeInside(h: Harness, red: Redaction, text: string, functions: seq<FunctionStream>, phase: ScriptPhase, current: int,
                    closing: FunctionStream, timedOut: bool, ghost a: Auto)
    returns (ok: bool, table: seq<FunctionStream>, next: ScriptPhase, closed: FunctionStream, timeout: bool, ghost b: Auto)
    requires InScriptLoop(h, a, functions, phase, current, closing, timedOut) && (phase.AfterHead? || phase.InTest?)
    ensures ok ==> ParseLine(text).Some? && Step(h, red, a, ParseLine(text).value) == Some(b)
    ensures !ok ==> ParseLine(text).None? || Step(h, red, a, ParseLine(text).value).None?
    ensures ok ==> InScriptLoop(h, b, table, next, current, closed, timeout)
  {
    ok, table, next, closed, timeout, b := false, functions, phase, closing, timedOut, a;
    var parsed := ParseLine(text);
    if parsed.Some? {
      if phase.AfterHead? {
        ok, b := TakeScriptBegin(h, red, parsed.value, functions, current, closing, timedOut, a);
        next := InTest;
      } else {
        ok, table, next, closed, timeout, b := TakeScriptRecord(h, red, parsed.value, functions, current, closing, timedOut, a);
      }
    }
  }

  method NormalizeScript(h: Harness, red: Redaction, payload: string) returns (r: Option<seq<FunctionStream>>)
    requires Rendered(h) && h.runner.Framed()
    ensures r == Normal(h, red, payload)
  {
    if payload == [] || !Valid(payload) || payload[|payload| - 1] != '\n' {
      return None;
    }
    var texts := Lines(payload);
    var limit := Limit(h);
    if |texts| > limit {
      if Reads(h, red, START, texts).Some? {
        LimitNeverTrips(h, red, texts);
      }
      return None;
    }
    var functions := NewTable(h);
    var phase, current, timedOut := BetweenTests, 0, false;
    var closing := FunctionStream("", 0, Reading, "", 0, "", []);
    ghost var a := START;
    assert texts[0..] == texts;
    for number := 0 to |texts|
      invariant InScriptLoop(h, a, functions, phase, current, closing, timedOut)
      invariant Reads(h, red, START, texts) == Reads(h, red, a, texts[number..])
    {
      ReadsNext(h, red, a, texts, number);
      var ok;
      match phase {
        case BetweenTests =>
          ok, functions, a := TakeHead(h, red, texts[number], functions, current, closing, timedOut, a);
          current, phase := current + 1, AfterHead;
        case AfterEnd =>
          ok, functions, a := TakeDone(h, red, texts[number], functions, current, closing, timedOut, a);
          phase := BetweenTests;
        case _ =>
          ok, functions, phase, closing, timedOut, a :=
            TakeInside(h, red, texts[number], functions, phase, current, closing, timedOut, a);
      }
      if !ok {
        return None;
      }
    }
    SoundReads(h, red, payload);
    LaidFinish(h, a, functions);
    if !phase.BetweenTests? {
      functions := Interrupt(h, functions, current, a);
    }
    return Some(functions);
  }
}

/** From bytes to a stream. */
module Capture {
  import opened Utf8
  import opened Json
  import opened Records
  import opened Wire
  import opened Emitter
  import opened Automaton
  import opened Language
  import opened Normalizer

  // ----- canonical records are valid UTF-8 -----

  predicate ValidMember(m: Member) {
    Valid(m.key) && (m.value.Str? ==> Valid(m.value.s))
  }

  lemma Valid3(a: string, b: string, c: string)
    requires Valid(a) && Valid(b) && Valid(c)
    ensures Valid(a + (b + c))
  {
    ValidConcat(b, c);
    ValidConcat(a, b + c);
  }

  lemma RenderMemberIsValid(m: Member)
    requires ValidMember(m)
    ensures Valid(RenderMember(m))
  {
    QuoteIsValid(m.key);
    AsciiIsValid(":");
    match m.value {
      case Num(n) => AsciiIsValid(Itoa(n));
      case Str(s) => QuoteIsValid(s);
      case Flag(b) => AsciiIsValid(RenderValue(m.value));
    }
    Valid3(Quote(m.key), ":", RenderValue(m.value));
  }

  lemma {:induction false} RenderMembersIsValid(ms: seq<Member>)
    requires ms != [] && forall k :: 0 <= k < |ms| ==> ValidMember(ms[k])
    ensures Valid(RenderMembers(ms))
    decreases |ms|
  {
    RenderMemberIsValid(ms[0]);
    if |ms| == 1 {
      AsciiIsValid("}");
      ValidConcat(RenderMember(ms[0]), "}");
    } else {
      RenderMembersIsValid(ms[1..]);
      AsciiIsValid(",");
      Valid3(RenderMember(ms[0]), ",", RenderMembers(ms[1..]));
    }
  }

  lemma KeysAreValid()
    ensures forall key :: key in ["f", "k", "n", "i", "h", "l", "o", "p", "d", "t", "x", "s", "w"] ==> Valid(key)
    ensures forall kind :: kind in ["head", "begin", "obs", "stop", "end", "done"] ==> Valid(kind)
  {
    forall key | key in ["f", "k", "n", "i", "h", "l", "o", "p", "d", "t", "x", "s", "w"] ensures Valid(key) {
      AsciiIsValid(key);
    }
    forall kind | kind in ["head", "begin", "obs", "stop", "end", "done"] ensures Valid(kind) {
      AsciiIsValid(kind);
    }
  }

  lemma CanonIsValid(l: Line)
    requires WellFormed(l)
    ensures Valid(Canon(l))
  {
    KeysAreValid();
    var ms := Fields(l);
    forall k | 0 <= k < |ms| ensures ValidMember(ms[k]) {}
    RenderMembersIsValid(ms);
    AsciiIsValid("{");
    ValidConcat("{", RenderMembers(ms));
  }

  predicate AllWellFormed(ls: seq<Line>) {
    forall k :: 0 <= k < |ls| ==> WellFormed(ls[k])
  }

  lemma {:induction false} FileIsValid(ls: seq<Line>)
    requires AllWellFormed(ls)
    ensures Valid(File(ls))
    decreases |ls|
  {
    if ls != [] {
      CanonIsValid(ls[0]);
      AsciiIsValid("\n");
      FileIsValid(ls[1..]);
      Valid3(Canon(ls[0]), "\n", File(ls[1..]));
      assert Canons(ls)[1..] == Canons(ls[1..]);
    }
  }

  // ----- the accepted payloads -----

  lemma {:induction false} ParseAllCanons(ls: seq<Line>)
    requires AllWellFormed(ls)
    ensures ParseAll(Canons(ls)) == Some(ls)
    decreases |ls|
  {
    hide ParseLine, Canon, WellFormed;
    if ls != [] {
      ParseLineExact(Canon(ls[0]), ls[0]);
      ParseAllCanons(ls[1..]);
      assert Canons(ls)[1..] == Canons(ls[1..]);
      assert [ls[0]] + ls[1..] == ls;
    }
  }

  lemma {:induction false} CanonsOfParsed(texts: seq<string>)
    requires ParseAll(texts).Some?
    ensures Canons(ParseAll(texts).value) == texts && AllWellFormed(ParseAll(texts).value)
    decreases |texts|
  {
    hide ParseLine, Canon, WellFormed;
    if texts != [] {
      var l, ls := ParseLine(texts[0]).value, ParseAll(texts[1..]).value;
      ParseLineExact(texts[0], l);
      CanonsOfParsed(texts[1..]);
      assert Canons([l] + ls) == [Canon(l)] + Canons(ls);
    }
  }

  lemma FileIsComplete(ls: seq<Line>)
    requires AllWellFormed(ls) && ls != []
    ensures CompleteText(File(ls)) && Lines(File(ls)) == Canons(ls)
  {
    FileIsValid(ls);
    LinesOfPayload(Canons(ls));
  }

  /** A complete payload is read exactly when it is the file of records the automaton accepts. */
  lemma NormalOfFile(h: Harness, red: Redaction, ls: seq<Line>)
    requires h.Renderable() && AllWellFormed(ls) && ls != []
    ensures Normal(h, red, File(ls)).Some? <==> Accepts(h, red, ls)
    ensures var end := Fold(h, red, START, ls);
            end.Some? ==> Sound(h, end.value) && Normal(h, red, File(ls)) == Some(Finish(h, end.value))
  {
    FileIsComplete(ls);
    ParseAllCanons(ls);
    ReadsIsFold(h, red, START, Canons(ls));
    if Fold(h, red, START, ls).Some? {
      FoldSound(h, red, START, ls);
    }
  }

  /** Every accepted payload is the file of its own records. */
  lemma AcceptedIsFile(h: Harness, red: Redaction, payload: string) returns (ls: seq<Line>)
    requires h.Renderable() && Normal(h, red, payload).Some?
    ensures ls != [] && AllWellFormed(ls) && payload == File(ls) && Accepts(h, red, ls)
  {
    hide ParseLine, Canon, WellFormed, Lines, Payload, Reads, Fold, Finish, Valid;
    var texts := Lines(payload);
    ReadsIsFold(h, red, START, texts);
    ls := ParseAll(texts).value;
    CanonsOfParsed(texts);
    Rejoined(payload);
  }

  lemma Rejoined(payload: string)
    requires CompleteText(payload)
    ensures Payload(Lines(payload)) == payload
  {
    hide Valid;
    PayloadOfLines(payload[..|payload| - 1]);
    assert payload == payload[..|payload| - 1] + "\n";
  }

  /**
   The accepted payloads, byte for byte: the files of the nonempty line-prefixes of the runs
   of the harness, in either format, with any data that pass the check of an observation.
   */
  lemma AcceptedBytes(h: Harness, red: Redaction, payload: string)
    requires h.Renderable()
    ensures Normal(h, red, payload).Some? <==>
            exists runs, ls :: RunsFit(h, 1, runs) && ls != [] && ls <= Run(h, runs) && AllWellFormed(ls) && payload == File(ls)
  {
    if Normal(h, red, payload).Some? {
      var ls := AcceptedIsFile(h, red, payload);
      var runs := AcceptedIsPrefix(h, red, ls);
      assert RunsFit(h, 1, runs) && ls != [] && ls <= Run(h, runs) && AllWellFormed(ls) && payload == File(ls);
    }
    if exists runs, ls :: RunsFit(h, 1, runs) && ls != [] && ls <= Run(h, runs) && AllWellFormed(ls) && payload == File(ls) {
      var runs, ls :| RunsFit(h, 1, runs) && ls != [] && ls <= Run(h, runs) && AllWellFormed(ls) && payload == File(ls);
      StatesOfRun(h, red, runs, ls);
      NormalOfFile(h, red, ls);
    }
  }

  // ----- a process that may die at any byte -----

  /** The records a real run writes are well formed. */
  predicate Spoken(r: CallResult) {
    r.Observed? ==> Valid(r.obs.shown)
  }

  predicate SpokenRuns(runs: seq<seq<CallResult>>) {
    forall k :: 0 <= k < |runs| ==> forall j :: 0 <= j < |runs[k]| ==> Spoken(runs[k][j])
  }

  lemma {:induction false} EscapeHash(s: string)
    requires LowerHex(s)
    ensures Escape(s) == s && Valid(s)
    decreases |s|
  {
    AsciiIsValid(s);
    if s != [] {
      EscapeHash(s[1..]);
      AsciiIsValid(s);
    }
  }

  lemma ReasonValid(how: CallState)
    ensures Valid(Reason(how)) && Valid(POISONED)
  {
    hide Valid;
    AsciiIsValid(Reason(how));
    AsciiIsValid(POISONED);
  }

  lemma ResultLineWellFormed(h: Harness, f: int, k: nat, r: CallResult)
    requires 1 <= f && Int64(f) && Int64(k) && Producible(h, r) && Spoken(r)
    ensures WellFormed(ResultLine(f, k, r))
  {
    match r {
      case Observed(o) => EscapeHash(o.hash);
      case Broke(how) => ReasonValid(how);
    }
  }

  lemma {:induction false} InputLinesWellFormed(h: Harness, f: int, k: nat, rs: seq<CallResult>)
    requires 1 <= f && Int64(f) && Int64(k + |rs|)
    requires ResultsFit(h, rs, |rs|) && forall j :: 0 <= j < |rs| ==> Spoken(rs[j])
    ensures AllWellFormed(InputLines(f, k, rs))
    decreases |rs|
  {
    if rs != [] {
      assert Producible(h, rs[0]) && Spoken(rs[0]);
      ResultLineWellFormed(h, f, k, rs[0]);
      InputLinesWellFormed(h, f, k + 1, rs[1..]);
    }
  }

  lemma TestLinesWellFormed(h: Harness, f: int, poisoned: bool, rs: seq<CallResult>)
    requires Rendered(h) && h.Has(f) && ResultsFit(h, rs, h.Planned(f))
    requires forall j :: 0 <= j < |rs| ==> Spoken(rs[j])
    ensures AllWellFormed(TestLines(h, f, poisoned, rs))
  {
    hide Valid, Observations, InputLines;
    ReasonValid(Aborted);
    InputLinesWellFormed(h, f, 0, rs);
    var opening, body, closing := OpenLines(h, f), BodyLines(f, 0, poisoned, rs), DoneLines(h, f, Observations(poisoned, rs));
    assert AllWellFormed(opening) && AllWellFormed(body) && AllWellFormed(closing);
  }

  lemma {:induction false} RunLinesWellFormed(h: Harness, f: int, poisoned: bool, runs: seq<seq<CallResult>>)
    requires Rendered(h) && RunsFit(h, f, runs) && SpokenRuns(runs)
    ensures AllWellFormed(RunLines(h, f, poisoned, runs))
    decreases |runs|
  {
    if runs != [] {
      RunsTail(h, f, runs);
      TestLinesWellFormed(h, f, poisoned, runs[0]);
      assert SpokenRuns(runs[1..]);
      RunLinesWellFormed(h, f + 1, Poisons(poisoned, runs[0]), runs[1..]);
    }
  }

  lemma BreakAfterLine(line: string, rest: string, j: nat)
    requires NoControl(line) && j <= |line| + |rest| && (line + ("\n" + rest))[j] == '\n'
    ensures j >= |line|
  {}

  /** A prefix of a file that ends at a line break is the file of a prefix of its records. */
  lemma {:induction false} PrefixAtLineBreak(lines: seq<string>, p: string) returns (m: nat)
    requires forall k :: 0 <= k < |lines| ==> NoControl(lines[k])
    requires p <= Payload(lines) && p != [] && p[|p| - 1] == '\n'
    ensures 0 < m <= |lines| && p == Payload(lines[..m])
    decreases |lines|
  {
    var first := lines[0];
    var rest := Payload(lines[1..]);
    assert Payload(lines) == first + ("\n" + rest);
    BreakAfterLine(first, rest, |p| - 1);
    if |p| == |first| + 1 {
      m := 1;
      assert Payload(lines[..1][1..]) == "";
      assert Payload(lines[..1]) == first + "\n";
    } else {
      var q := p[|first| + 1..];
      assert q <= rest;
      var n := PrefixAtLineBreak(lines[1..], q);
      m := n + 1;
      assert lines[..m][1..] == lines[1..][..n];
      assert p == first + ("\n" + q);
    }
  }

  /**
   What is captured of a process that dies at any byte: a nonempty prefix of the file is
   accepted exactly when it ends with a complete line, and is then the stream of the run at
   that line; a record cut short is never trusted.
   */
  lemma CapturedPrefix(h: Harness, red: Redaction, runs: seq<seq<CallResult>>, p: string)
    requires Rendered(h) && RunsFit(h, 1, runs) && SpokenRuns(runs)
    requires p <= File(Run(h, runs)) && p != []
    ensures Normal(h, red, p).Some? <==> p[|p| - 1] == '\n'
    ensures p[|p| - 1] == '\n' ==>
              exists m :: 0 < m <= |Run(h, runs)| && p == File(Run(h, runs)[..m])
                          && Normal(h, red, p) == Some(StreamOf(h, red, 1, false, runs, m))
  {
    if p[|p| - 1] == '\n' {
      var m := CapturedAtBreak(h, red, runs, p);
    }
  }

  lemma CapturedAtBreak(h: Harness, red: Redaction, runs: seq<seq<CallResult>>, p: string) returns (m: nat)
    requires Rendered(h) && RunsFit(h, 1, runs) && SpokenRuns(runs)
    requires p <= File(Run(h, runs)) && p != [] && p[|p| - 1] == '\n'
    ensures 0 < m <= |Run(h, runs)| && p == File(Run(h, runs)[..m])
    ensures Normal(h, red, p) == Some(StreamOf(h, red, 1, false, runs, m))
  {
    hide Canon, WellFormed, Normal, StreamOf;
    var run := Run(h, runs);
    RunLinesWellFormed(h, 1, false, runs);
    m := PrefixAtLineBreak(Canons(run), p);
    assert Canons(run)[..m] == Canons(run[..m]);
    StatesOfRun(h, red, runs, run[..m]);
    NormalOfFile(h, red, run[..m]);
  }

  // ----- the done record of a script stream -----

  /** Whether function f wrote its done record. */
  predicate WroteDone(ls: seq<Line>, f: int) {
    exists k :: 0 <= k < |ls| && ls[k].Done? && ls[k].f == f
  }

  predicate Ended(fn: FunctionStream) {
    fn.state.Complete? || fn.state.Stopped?
  }

  /** The records of inputs belong to f and hold no done record. */
  lemma {:induction false} InputLinesAt(f: int, k: nat, rs: seq<CallResult>, j: nat)
    requires j < |InputLines(f, k, rs)|
    ensures InputLines(f, k, rs)[j].f == f && !InputLines(f, k, rs)[j].Done?
    decreases |rs|
  {
    if rs != [] && !rs[0].Broke? && j > 0 {
      InputLinesAt(f, k + 1, rs[1..], j - 1);
    }
  }

  /** The done record of a function is its last record, and only its own. */
  lemma TestLinesAt(h: Harness, f: int, poisoned: bool, rs: seq<CallResult>, j: nat)
    requires h.runner.Framed() && h.Has(f) && j < |TestLines(h, f, poisoned, rs)|
    ensures var ls := TestLines(h, f, poisoned, rs); ls[j].f == f && (ls[j].Done? <==> j == |ls| - 1)
  {
    hide InputLines, Observations;
    var opening, body, closing := OpenLines(h, f), BodyLines(f, 0, poisoned, rs), DoneLines(h, f, Observations(poisoned, rs));
    assert |opening| == 2 && |closing| == 1;
    if 2 <= j < 2 + |body| {
      BodyLinesAt(f, poisoned, rs, j - 2);
      assert TestLines(h, f, poisoned, rs)[j] == body[j - 2];
    }
  }

  lemma BodyLinesAt(f: int, poisoned: bool, rs: seq<CallResult>, j: nat)
    requires j < |BodyLines(f, 0, poisoned, rs)|
    ensures BodyLines(f, 0, poisoned, rs)[j].f == f && !BodyLines(f, 0, poisoned, rs)[j].Done?
  {
    hide InputLines;
    if !poisoned {
      InputLinesAt(f, 0, rs, j);
    }
  }

  lemma {:induction false} UnstartedState(h: Harness, f: int, k: nat)
    requires 1 <= f <= |h.tests| + 1 && k < |Unstarted(h, f)|
    ensures Unstarted(h, f)[k] == NotStartedStream(h, f + k)
    decreases |h.tests| + 1 - f
  {
    if k > 0 {
      UnstartedState(h, f + 1, k - 1);
    }
  }

  lemma {:induction false} RanEnded(h: Harness, red: Redaction, f: int, records: seq<Record>, poisoned: bool, rs: seq<CallResult>)
    requires h.Has(f) && |records| + |rs| == h.Planned(f) && (poisoned ==> rs != [])
    ensures Ended(RanStream(h, red, f, records, poisoned, rs))
    decreases |rs|
  {
    if !poisoned && rs != [] && rs[0].Observed? {
      RanEnded(h, red, f, records + [RecordOf(h, red, f, rs[0].obs, |records|)], poisoned, rs[1..]);
    }
  }

  lemma {:induction false} StreamOfSize(h: Harness, red: Redaction, f: int, poisoned: bool, runs: seq<seq<CallResult>>, m: nat)
    requires h.Renderable() && RunsFit(h, f, runs)
    ensures |StreamOf(h, red, f, poisoned, runs, m)| == |h.tests| + 1 - f
    decreases |runs|
  {
    if runs != [] && m > 0 {
      RunsTail(h, f, runs);
      var ls := TestLines(h, f, poisoned, runs[0]);
      if m >= |ls| {
        StreamOfSize(h, red, f + 1, Poisons(poisoned, runs[0]), runs[1..], m - |ls|);
      }
    }
  }

  /**
   In a script stream, a function is complete or stopped exactly when its done record was
   written: without it, even a function with an end or stop record is interrupted.
   */
  lemma {:induction false} EndedIffDone(h: Harness, red: Redaction, f: int, poisoned: bool, runs: seq<seq<CallResult>>,
                                        m: nat, g: int)
    requires h.Renderable() && h.runner.Framed() && RunsFit(h, f, runs)
    requires m <= |RunLines(h, f, poisoned, runs)| && f <= g <= |h.tests|
    ensures |StreamOf(h, red, f, poisoned, runs, m)| == |h.tests| + 1 - f
    ensures Ended(StreamOf(h, red, f, poisoned, runs, m)[g - f]) <==> WroteDone(RunLines(h, f, poisoned, runs)[..m], g)
    decreases |runs|
  {
    StreamOfSize(h, red, f, poisoned, runs, m);
    var all := RunLines(h, f, poisoned, runs);
    if m == 0 {
      UnstartedState(h, f, g - f);
    } else {
      RunsTail(h, f, runs);
      var ls := TestLines(h, f, poisoned, runs[0]);
      if m < |ls| {
        assert all[..m] == ls[..m];
        forall k | 0 <= k < m ensures !ls[k].Done? {
          TestLinesAt(h, f, poisoned, runs[0], k);
        }
        if g > f {
          UnstartedState(h, f + 1, g - f - 1);
        }
      } else {
        EndedBeyond(h, red, f, poisoned, runs, m, g);
      }
    }
  }

  lemma {:induction false} EndedBeyond(h: Harness, red: Redaction, f: int, poisoned: bool, runs: seq<seq<CallResult>>,
                                       m: nat, g: int)
    requires h.Renderable() && h.runner.Framed() && RunsFit(h, f, runs) && runs != []
    requires h.Has(f) && |TestLines(h, f, poisoned, runs[0])| <= m <= |RunLines(h, f, poisoned, runs)|
    requires f <= g <= |h.tests|
    ensures |StreamOf(h, red, f, poisoned, runs, m)| == |h.tests| + 1 - f
    ensures Ended(StreamOf(h, red, f, poisoned, runs, m)[g - f]) <==> WroteDone(RunLines(h, f, poisoned, runs)[..m], g)
    decreases |runs|, 0
  {
    hide TestLines, Poisons, RanStream, ResultsFit;
    StreamOfSize(h, red, f, poisoned, runs, m);
    RunsTail(h, f, runs);
    var ls := TestLines(h, f, poisoned, runs[0]);
    var after := RunLines(h, f + 1, Poisons(poisoned, runs[0]), runs[1..])[..m - |ls|];
    assert RunLines(h, f, poisoned, runs)[..m] == ls + after;
    forall k | 0 <= k < |ls| ensures ls[k].f == f && (ls[k].Done? <==> k == |ls| - 1) {
      TestLinesAt(h, f, poisoned, runs[0], k);
    }
    if g == f {
      RanEnded(h, red, f, [], poisoned, runs[0]);
      assert (ls + after)[|ls| - 1] == ls[|ls| - 1];
    } else {
      EndedIffDone(h, red, f + 1, Poisons(poisoned, runs[0]), runs[1..], m - |ls|, g);
      WroteDoneAfter(ls, after, f, g);
    }
  }

  lemma WroteDoneAfter(ls: seq<Line>, after: seq<Line>, f: int, g: int)
    requires f != g && forall k :: 0 <= k < |ls| ==> ls[k].f == f
    ensures WroteDone(ls + after, g) <==> WroteDone(after, g)
  {
    if WroteDone(after, g) {
      var k :| 0 <= k < |after| && after[k].Done? && after[k].f == g;
      assert (ls + after)[|ls| + k] == after[k];
    }
  }
}

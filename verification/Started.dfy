/** How many tests of a script stream started, and whether the process ended inside one of them. */
module Started {
  import opened Json
  import opened Records
  import opened Emitter
  import opened Automaton
  import opened Capture
  import opened Validator

  function Count(fs: seq<FunctionStream>): nat {
    if fs == [] then 0 else Count(fs[..|fs| - 1]) + if fs[|fs| - 1].state.NotStarted? then 0 else 1
  }

  /** The last function that started was interrupted. */
  predicate Inside(fs: seq<FunctionStream>) {
    fs != [] && if fs[|fs| - 1].state.NotStarted? then Inside(fs[..|fs| - 1]) else fs[|fs| - 1].state.Interrupted?
  }

  /** StartedTests, of the stream parsed: none and outside when the stream does not pass. */
  method StartedTests(s: Stream) returns (started: nat, inside: bool)
    ensures Validates(s) ==> started == Count(s.functions) && inside == Inside(s.functions)
    ensures !Validates(s) ==> started == 0 && !inside
  {
    started, inside := 0, false;
    var valid := Validate(s);
    if !valid {
      return;
    }
    var fs := s.functions;
    for i := 0 to |fs|
      invariant started == Count(fs[..i]) && inside == Inside(fs[..i])
    {
      assert fs[..i + 1][..i] == fs[..i];
      if !fs[i].state.NotStarted? {
        started := started + 1;
        inside := fs[i].state.Interrupted?;
      }
    }
    assert fs[..|fs|] == fs;
  }

  lemma {:induction false} CountCons(fn: FunctionStream, fs: seq<FunctionStream>)
    ensures Count([fn] + fs) == (if fn.state.NotStarted? then 0 else 1) + Count(fs)
    ensures Inside([fn] + fs) == if Count(fs) > 0 then Inside(fs) else fn.state.Interrupted?
    decreases |fs|
  {
    var all := [fn] + fs;
    if fs == [] {
      assert all == [fn] && all[..0] == [];
    } else {
      CountCons(fn, fs[..|fs| - 1]);
      assert all[..|all| - 1] == [fn] + fs[..|fs| - 1];
    }
  }

  lemma {:induction false} NoneStarted(h: Harness, f: int)
    requires 1 <= f <= |h.tests| + 1
    ensures Count(Unstarted(h, f)) == 0 && !Inside(Unstarted(h, f))
    decreases |h.tests| + 1 - f
  {
    if f <= |h.tests| {
      NoneStarted(h, f + 1);
      CountCons(NotStartedStream(h, f), Unstarted(h, f + 1));
    }
  }

  function Heads(ls: seq<Line>): nat
    decreases |ls|
  {
    if ls == [] then 0 else (if ls[0].Head? then 1 else 0) + Heads(ls[1..])
  }

  function Dones(ls: seq<Line>): nat
    decreases |ls|
  {
    if ls == [] then 0 else (if ls[0].Done? then 1 else 0) + Dones(ls[1..])
  }

  lemma {:induction false} MarksConcat(a: seq<Line>, b: seq<Line>)
    ensures Heads(a + b) == Heads(a) + Heads(b) && Dones(a + b) == Dones(a) + Dones(b)
    decreases |a|
  {
    if a == [] {
      assert a + b == b;
    } else {
      MarksConcat(a[1..], b);
      assert (a + b)[1..] == a[1..] + b;
    }
  }

  lemma {:induction false} NoMarks(ls: seq<Line>)
    requires forall k :: 0 <= k < |ls| ==> !ls[k].Head? && !ls[k].Done?
    ensures Heads(ls) == 0 && Dones(ls) == 0
    decreases |ls|
  {
    if ls != [] {
      NoMarks(ls[1..]);
    }
  }

  lemma {:induction false} InputLinesPlain(f: int, k: nat, rs: seq<CallResult>, j: nat)
    requires j < |InputLines(f, k, rs)|
    ensures !InputLines(f, k, rs)[j].Head? && !InputLines(f, k, rs)[j].Done?
    decreases |rs|
  {
    if rs != [] && !rs[0].Broke? && j > 0 {
      InputLinesPlain(f, k + 1, rs[1..], j - 1);
    }
  }

  /** A function writes one head record, its first, and one done record, its last. */
  lemma TestMarks(h: Harness, f: int, poisoned: bool, rs: seq<CallResult>, m: nat)
    requires h.runner.Framed() && h.Has(f) && 0 < m <= |TestLines(h, f, poisoned, rs)|
    ensures var ls := TestLines(h, f, poisoned, rs);
            Heads(ls[..m]) == 1 && Dones(ls[..m]) == if m == |ls| then 1 else 0
  {
    hide BodyLines, InputLines, Heads, Dones;
    var ls := TestLines(h, f, poisoned, rs);
    var body := BodyLines(f, 0, poisoned, rs);
    forall j | 0 <= j < |body|
      ensures !body[j].Head? && !body[j].Done?
    {
      BodyPlain(f, poisoned, rs, j);
    }
    var head := [Head(f, h.suffix, h.Name(f))];
    var middle := [Begin(f, h.Planned(f))] + body;
    var done := [Done(f, h.Name(f), Observations(poisoned, rs))];
    assert ls == head + (middle + done);
    OneMark(head[0]);
    OneMark(done[0]);
    if m == |ls| {
      assert ls[..m] == head + (middle + done);
      NoMarks(middle);
      MarksConcat(middle, done);
      MarksConcat(head, middle + done);
    } else {
      assert ls[..m] == head + middle[..m - 1];
      NoMarks(middle[..m - 1]);
      MarksConcat(head, middle[..m - 1]);
    }
  }

  lemma BodyPlain(f: int, poisoned: bool, rs: seq<CallResult>, j: nat)
    requires j < |BodyLines(f, 0, poisoned, rs)|
    ensures !BodyLines(f, 0, poisoned, rs)[j].Head? && !BodyLines(f, 0, poisoned, rs)[j].Done?
  {
    if !poisoned {
      InputLinesPlain(f, 0, rs, j);
    }
  }

  lemma OneMark(l: Line)
    ensures Heads([l]) == (if l.Head? then 1 else 0) && Dones([l]) == if l.Done? then 1 else 0
  {
    assert [l][1..] == [];
  }

  /**
   What the counts tell: of a process that died after any m lines, the tests counted as started
   are those that wrote their head record, and the stream ended inside a test exactly when one of
   them did not write its done record.
   */
  lemma {:induction false} StartedIsHeads(h: Harness, red: Redaction, f: int, poisoned: bool, runs: seq<seq<CallResult>>, m: nat)
    requires h.Renderable() && h.runner.Framed() && RunsFit(h, f, runs) && m <= |RunLines(h, f, poisoned, runs)|
    ensures var fs, written := StreamOf(h, red, f, poisoned, runs, m), RunLines(h, f, poisoned, runs)[..m];
            && Count(fs) == Heads(written)
            && (Inside(fs) <==> Heads(written) > Dones(written))
            && Dones(written) <= Heads(written)
    decreases |runs|
  {
    hide StreamOf, TestLines, RanStream, RecordsIn, Unstarted, Count, Inside, Heads, Dones, Poisons;
    if runs == [] || m == 0 {
      NothingWritten(h, red, f, poisoned, runs, m);
    } else {
      var all, ls := RunLines(h, f, poisoned, runs), TestLines(h, f, poisoned, runs[0]);
      StreamStep(h, red, f, poisoned, runs, m);
      TestMarks(h, f, poisoned, runs[0], if m < |ls| then m else |ls|);
      if m < |ls| {
        assert all[..m] == ls[..m];
        NoneStarted(h, f + 1);
        CountCons(InterruptedStream(h, f, RecordsIn(h, red, f, ls[..m])), Unstarted(h, f + 1));
      } else {
        var after, poison := m - |ls|, Poisons(poisoned, runs[0]);
        var rest := RunLines(h, f + 1, poison, runs[1..]);
        assert all[..m] == ls + rest[..after] && ls[..|ls|] == ls;
        StartedIsHeads(h, red, f + 1, poison, runs[1..], after);
        MarksConcat(ls, rest[..after]);
        RanEnded(h, red, f, [], poisoned, runs[0]);
        CountCons(RanStream(h, red, f, [], poisoned, runs[0]), StreamOf(h, red, f + 1, poison, runs[1..], after));
        InsideIsStarted(StreamOf(h, red, f + 1, poison, runs[1..], after));
      }
    }
  }

  lemma NothingWritten(h: Harness, red: Redaction, f: int, poisoned: bool, runs: seq<seq<CallResult>>, m: nat)
    requires h.Renderable() && RunsFit(h, f, runs) && (runs == [] || m == 0) && m <= |RunLines(h, f, poisoned, runs)|
    ensures Count(StreamOf(h, red, f, poisoned, runs, m)) == 0 && !Inside(StreamOf(h, red, f, poisoned, runs, m))
    ensures Heads(RunLines(h, f, poisoned, runs)[..m]) == 0 && Dones(RunLines(h, f, poisoned, runs)[..m]) == 0
  {
    NoneStarted(h, f);
    assert RunLines(h, f, poisoned, runs)[..m] == [];
  }

  lemma {:induction false} InsideIsStarted(fs: seq<FunctionStream>)
    ensures Inside(fs) ==> Count(fs) > 0
  {
    if fs != [] {
      InsideIsStarted(fs[..|fs| - 1]);
    }
  }
}

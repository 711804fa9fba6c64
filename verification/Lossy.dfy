/** Processes whose writes fail: what is accepted of them is the front of a run. */
module Lossy {
  import opened Json
  import opened Records
  import opened Emitter
  import opened Automaton
  import opened Language
  import opened Normalizer
  import opened Capture
  import opened Wire

  // ----- where a record can begin -----

  /** No record begins in the text: a brace, a quote and the first letter of its first key. */
  predicate NoStart(s: string) {
    forall i :: 0 <= i < |s| - 2 ==> !(s[i] == '{' && s[i + 1] == '"' && s[i + 2] == 'f')
  }

  /** Every quote is escaped. */
  predicate Guarded(e: string) {
    forall i {:trigger e[i]} :: 0 <= i < |e| && e[i] == '"' ==> i > 0 && e[i - 1] == '\\'
  }

  lemma {:induction false} EscapeGuarded(s: string)
    ensures Guarded(Escape(s))
    decreases |s|
  {
    if s != [] {
      EscapeGuarded(s[1..]);
      ByteGuarded(s[0]);
      GuardedJoin(EscapeByte(s[0]), Escape(s[1..]));
    }
  }

  lemma ByteGuarded(c: char)
    ensures Guarded(EscapeByte(c))
  {}

  lemma GuardedJoin(a: string, b: string)
    requires Guarded(a) && Guarded(b)
    ensures Guarded(a + b)
  {
    forall i | 0 <= i < |a + b| && (a + b)[i] == '"'
      ensures i > 0 && (a + b)[i - 1] == '\\'
    {
      if i < |a| {
        assert a[i] == '"';
        assert i > 0 && a[i - 1] == '\\';
      } else {
        var j := i - |a|;
        assert b[j] == '"';
        assert j > 0 && b[j - 1] == '\\';
      }
    }
  }

  lemma AfterQuoted(e: string, x: string)
    requires Guarded(e) && NoStart(x) && x != [] && x[0] != 'f'
    ensures NoStart("\"" + e + "\"" + x)
  {
    var s, n := "\"" + e + "\"" + x, |e| + 2;
    assert forall k :: 0 < k <= |e| ==> s[k] == e[k - 1];
    assert forall k :: n <= k < |s| ==> s[k] == x[k - n];
    forall i | 0 <= i < |s| - 2
      ensures !(s[i] == '{' && s[i + 1] == '"' && s[i + 2] == 'f')
    {
      if i >= n {
        assert !(x[i - n] == '{' && x[i - n + 1] == '"' && x[i - n + 2] == 'f');
      }
    }
  }

  lemma AfterPlain(a: string, x: string)
    requires '{' !in a && NoStart(x)
    ensures NoStart(a + x)
  {
    forall i | 0 <= i < |a + x| - 2
      ensures !((a + x)[i] == '{' && (a + x)[i + 1] == '"' && (a + x)[i + 2] == 'f')
    {
      if i >= |a| {
        assert !(x[i - |a|] == '{' && x[i - |a| + 1] == '"' && x[i - |a| + 2] == 'f');
      }
    }
  }

  lemma ItoaPlain(n: int)
    ensures '{' !in Itoa(n)
  {
    var d := Digits(if n < 0 then -n else n);
    assert forall k :: 0 <= k < |d| ==> IsDigit(d[k]);
  }

  lemma AfterValue(v: Value, x: string)
    requires NoStart(x) && x != [] && x[0] != 'f'
    ensures NoStart(RenderValue(v) + x)
  {
    hide Escape, Itoa;
    match v
    case Num(n) =>
      ItoaPlain(n);
      AfterPlain(Itoa(n), x);
    case Str(s) =>
      EscapeGuarded(s);
      AfterQuoted(Escape(s), x);
    case Flag(b) => AfterPlain(if b then "true" else "false", x);
  }

  lemma AfterMember(m: Member, x: string)
    requires NoStart(x) && x != [] && x[0] != 'f'
    ensures NoStart(RenderMember(m) + x)
  {
    hide RenderValue, Escape;
    var v := RenderValue(m.value) + x;
    AfterValue(m.value, x);
    AfterPlain(":", v);
    EscapeGuarded(m.key);
    AfterQuoted(Escape(m.key), ":" + v);
    assert RenderMember(m) + x == "\"" + Escape(m.key) + "\"" + (":" + v);
  }

  lemma {:induction false} MembersHaveNoStart(ms: seq<Member>)
    requires ms != []
    ensures NoStart(RenderMembers(ms))
    decreases |ms|
  {
    hide RenderMember, NoStart;
    if |ms| == 1 {
      BraceHasNoStart();
      AfterMember(ms[0], "}");
    } else {
      MembersHaveNoStart(ms[1..]);
      CommaHasNoStart(RenderMembers(ms[1..]));
      AfterMember(ms[0], "," + RenderMembers(ms[1..]));
    }
  }

  lemma BraceHasNoStart()
    ensures NoStart("}")
  {}

  lemma CommaHasNoStart(x: string)
    requires NoStart(x)
    ensures NoStart("," + x)
  {
    AfterPlain(",", x);
  }

  /** A record begins at the front of its line, and nowhere else in it. */
  lemma CanonStarts(l: Line)
    ensures |Canon(l)| >= 3 && Canon(l)[0] == '{' && Canon(l)[1] == '"' && Canon(l)[2] == 'f'
    ensures NoStart(Canon(l)[1..])
  {
    hide RenderMembers, NoStart;
    var ms := Fields(l);
    MembersHaveNoStart(ms);
    assert Canon(l)[1..] == RenderMembers(ms);
    FirstKey(ms);
  }

  lemma FirstKey(ms: seq<Member>)
    requires ms != [] && ms[0].key == "f"
    ensures |RenderMembers(ms)| >= 2 && RenderMembers(ms)[0] == '"' && RenderMembers(ms)[1] == 'f'
  {
    hide RenderValue;
    assert Escape("f") == "f" by {
      assert "f"[1..] == "";
    }
    assert Quote("f") == "\"f\"";
  }

  /** What begins like a record begins a line, wherever it stands in a file. */
  lemma {:induction false} StartsAtLine(ls: seq<Line>, a: string, b: string)
    requires File(ls) == a + b && a != [] && |b| >= 3 && b[0] == '{' && b[1] == '"' && b[2] == 'f'
    ensures a[|a| - 1] == '\n'
    decreases |ls|
  {
    hide Canon;
    var first, rest := Canon(ls[0]), File(ls[1..]);
    FileFirst(ls);
    CanonStarts(ls[0]);
    if |a| > |first| + 1 {
      BeyondFront(first + "\n", rest, a, b);
      StartsAtLine(ls[1..], a[|first| + 1..], b);
    } else if |a| <= |first| {
      StartsInside(first, rest, a, b);
    } else {
      assert (a + b)[|a| - 1] == (first + "\n" + rest)[|first|];
    }
  }

  lemma BeyondFront(x: string, rest: string, a: string, b: string)
    requires x + rest == a + b && |a| >= |x|
    ensures a == x + a[|x|..] && rest == a[|x|..] + b
  {
    assert rest == (x + rest)[|x|..] && a[|x|..] + b == (a + b)[|x|..];
    assert forall k :: 0 <= k < |x| ==> a[k] == (a + b)[k] == (x + rest)[k] == x[k];
  }

  lemma FileFirst(ls: seq<Line>)
    requires File(ls) != []
    ensures ls != [] && File(ls) == Canon(ls[0]) + "\n" + File(ls[1..])
  {
    assert Canons(ls)[1..] == Canons(ls[1..]);
  }

  lemma StartsInside(first: string, rest: string, a: string, b: string)
    requires first + "\n" + rest == a + b && 0 < |a| <= |first|
    requires |b| >= 3 && b[0] == '{' && b[1] == '"' && b[2] == 'f'
    ensures !NoStart(first[1..])
  {
    var t, n := first + "\n" + rest, |a| - 1;
    assert t[|a|] == b[0] && t[|a| + 1] == b[1] && t[|a| + 2] == b[2];
    assert t[|first|] == '\n';
    assert |a| + 2 < |first|;
    assert first[1..][n] == t[|a|] && first[1..][n + 1] == t[|a| + 1] && first[1..][n + 2] == t[|a| + 2];
  }

  // ----- the blocks of a run -----

  /** Whether function k + 1 begins in a poisoned process. */
  predicate PoisonAt(runs: seq<seq<CallResult>>, k: nat)
    requires k <= |runs|
  {
    k > 0 && Poisons(PoisonAt(runs, k - 1), runs[k - 1])
  }

  function Block(h: Harness, runs: seq<seq<CallResult>>, k: nat): (ls: seq<Line>)
    requires k < |runs| && h.Has(k + 1)
    ensures |ls| >= 2
  {
    TestLines(h, k + 1, PoisonAt(runs, k), runs[k])
  }

  /** Everything functions 1 to k write. */
  function Front(h: Harness, runs: seq<seq<CallResult>>, k: nat): seq<Line>
    requires k <= |runs| == |h.tests|
  {
    if k == 0 then [] else Front(h, runs, k - 1) + Block(h, runs, k - 1)
  }

  lemma {:induction false} FrontThenRest(h: Harness, runs: seq<seq<CallResult>>, k: nat)
    requires k <= |runs| == |h.tests|
    ensures RunLines(h, 1, false, runs) == Front(h, runs, k) + RunLines(h, k + 1, PoisonAt(runs, k), runs[k..])
    decreases k
  {
    hide TestLines, Poisons;
    if k == 0 {
      assert runs[0..] == runs;
    } else {
      FrontThenRest(h, runs, k - 1);
      assert runs[k - 1..][0] == runs[k - 1] && runs[k - 1..][1..] == runs[k..];
    }
  }

  lemma FrontIsRun(h: Harness, runs: seq<seq<CallResult>>)
    requires h.Renderable() && RunsFit(h, 1, runs)
    ensures Front(h, runs, |runs|) == Run(h, runs)
  {
    hide Front;
    FrontThenRest(h, runs, |runs|);
    assert runs[|runs|..] == [];
  }

  lemma {:induction false} FrontGrows(h: Harness, runs: seq<seq<CallResult>>, j: nat, k: nat)
    requires j <= k <= |runs| == |h.tests|
    ensures Front(h, runs, j) <= Front(h, runs, k)
    decreases k
  {
    hide Block;
    if j < k {
      FrontGrows(h, runs, j, k - 1);
    }
  }

  /** The first record of a function, and the last one of a function that was not cut. */
  predicate Opens(h: Harness, l: Line) {
    if h.runner.Framed() then l.Head? else l.Begin?
  }

  predicate Closes(h: Harness, l: Line) {
    if h.runner.Framed() then l.Done? else l.End? || l.Stop?
  }

  lemma {:induction false} InputsClose(f: int, k: nat, rs: seq<CallResult>, j: nat)
    requires j < |InputLines(f, k, rs)|
    ensures var ls := InputLines(f, k, rs);
            && ls[j].f == f && (ls[j].Seen? || ls[j].Stop? || ls[j].End?) && (!ls[j].Seen? <==> j == |ls| - 1)
    decreases |rs|
  {
    if rs != [] && !rs[0].Broke? {
      if j > 0 {
        InputsClose(f, k + 1, rs[1..], j - 1);
      }
    }
  }

  lemma BodyCloses(f: int, poisoned: bool, rs: seq<CallResult>, j: nat)
    requires j < |BodyLines(f, 0, poisoned, rs)|
    ensures var ls := BodyLines(f, 0, poisoned, rs);
            && ls[j].f == f && (ls[j].Seen? || ls[j].Stop? || ls[j].End?) && (!ls[j].Seen? <==> j == |ls| - 1)
  {
    hide InputLines;
    if !poisoned {
      InputsClose(f, 0, rs, j);
    }
  }

  /** A function's records open with its first one, close with its last one, and are all its own. */
  lemma BlockCloses(h: Harness, runs: seq<seq<CallResult>>, k: nat, j: nat)
    requires k < |runs| && h.Has(k + 1) && j < |Block(h, runs, k)|
    ensures var ls := Block(h, runs, k);
            && ls[j].f == k + 1 && (Opens(h, ls[j]) <==> j == 0) && (Closes(h, ls[j]) <==> j == |ls| - 1)
  {
    hide InputLines, Observations, BodyLines, PoisonAt;
    var f, poisoned := k + 1, PoisonAt(runs, k);
    var opening, body := OpenLines(h, f), BodyLines(f, 0, poisoned, runs[k]);
    var closing := DoneLines(h, f, Observations(poisoned, runs[k]));
    var ls := opening + body + closing;
    assert ls == Block(h, runs, k);
    if |opening| <= j < |opening| + |body| {
      BodyCloses(f, poisoned, runs[k], j - |opening|);
      assert ls[j] == body[j - |opening|];
    } else if j < |opening| {
      assert ls[j] == opening[j];
    } else {
      assert ls[j] == closing[j - |opening| - |body|];
    }
  }

  /** Records that follow each other: the next function opens exactly after a closing record. */
  predicate Linked(h: Harness, a: Line, b: Line) {
    if Closes(h, a) then Opens(h, b) && b.f == a.f + 1 else !Opens(h, b) && b.f == a.f
  }

  predicate AllLinked(h: Harness, ls: seq<Line>) {
    && (ls != [] ==> Opens(h, ls[0]) && ls[0].f == 1)
    && forall n :: 0 < n < |ls| ==> Linked(h, ls[n - 1], ls[n])
  }

  lemma {:induction false} FrontLinked(h: Harness, runs: seq<seq<CallResult>>, k: nat)
    requires k <= |runs| == |h.tests|
    ensures AllLinked(h, Front(h, runs, k))
    ensures k > 0 ==> Front(h, runs, k) != [] && Closes(h, Front(h, runs, k)[|Front(h, runs, k)| - 1]) && Front(h, runs, k)[|Front(h, runs, k)| - 1].f == k
    decreases k
  {
    hide Block, Opens, Closes;
    if k > 0 {
      FrontLinked(h, runs, k - 1);
      var a, b := Front(h, runs, k - 1), Block(h, runs, k - 1);
      BlockCloses(h, runs, k - 1, |b| - 1);
      BlockCloses(h, runs, k - 1, 0);
      forall n | 0 < n < |a + b|
        ensures Linked(h, (a + b)[n - 1], (a + b)[n])
      {
        if n > |a| {
          BlockCloses(h, runs, k - 1, n - |a| - 1);
          BlockCloses(h, runs, k - 1, n - |a|);
        }
      }
    }
  }

  /** A closing record of function k stands at the end of its block. */
  lemma {:induction false} CloseIsAt(h: Harness, runs: seq<seq<CallResult>>, k: nat, n: nat)
    requires k <= |runs| == |h.tests| && n < |Front(h, runs, k)| && Closes(h, Front(h, runs, k)[n])
    ensures 1 <= Front(h, runs, k)[n].f <= k && n + 1 == |Front(h, runs, Front(h, runs, k)[n].f)|
    decreases k
  {
    hide Block, Closes;
    var a, b := Front(h, runs, k - 1), Block(h, runs, k - 1);
    if n < |a| {
      CloseIsAt(h, runs, k - 1, n);
    } else {
      BlockCloses(h, runs, k - 1, n - |a|);
    }
  }

  // ----- what is left when writes fail -----

  /**
   What each function left in the file, when a failed write may end any of them at any byte and the
   functions after it still run.
   */
  predicate Leaves(h: Harness, runs: seq<seq<CallResult>>, chunks: seq<string>)
    requires |runs| == |h.tests|
  {
    |chunks| == |runs| && forall k :: 0 <= k < |chunks| ==> chunks[k] <= File(Block(h, runs, k))
  }

  function Glued(chunks: seq<string>): string {
    if chunks == [] then "" else Glued(chunks[..|chunks| - 1]) + chunks[|chunks| - 1]
  }

  lemma CanonsJoin(a: seq<Line>, b: seq<Line>)
    ensures Canons(a + b) == Canons(a) + Canons(b)
  {
    hide Canon;
  }

  lemma {:induction false} PayloadJoin(a: seq<string>, b: seq<string>)
    ensures Payload(a + b) == Payload(a) + Payload(b)
    decreases |a|
  {
    if a == [] {
      assert a + b == b;
    } else {
      assert (a + b)[1..] == a[1..] + b;
      PayloadJoin(a[1..], b);
    }
  }

  lemma FileJoin(a: seq<Line>, b: seq<Line>)
    ensures File(a + b) == File(a) + File(b)
  {
    hide Canon, Payload;
    CanonsJoin(a, b);
    PayloadJoin(Canons(a), Canons(b));
  }

  lemma FileOfPrefix(a: seq<Line>, b: seq<Line>)
    requires a <= b
    ensures File(a) <= File(b)
  {
    hide File;
    FileJoin(a, b[|a|..]);
    assert b == a + b[|a|..];
  }

  lemma CanonsText(ls: seq<Line>)
    ensures forall k :: 0 <= k < |Canons(ls)| ==> NoControl(Canons(ls)[k])
  {
    hide Canon;
    forall k | 0 <= k < |ls|
      ensures NoControl(Canon(ls[k]))
    {
      CanonText(ls[k]);
    }
  }

  lemma CanonText(l: Line)
    ensures NoControl(Canon(l))
  {}

  /** A prefix of a file that ends with a complete line is the file of a prefix. */
  lemma WholeLines(ls: seq<Line>, p: string) returns (m: nat)
    requires p <= File(ls) && p != "" && p[|p| - 1] == '\n'
    ensures 0 < m <= |ls| && p == File(ls[..m])
  {
    hide Canon, Payload, NoControl;
    CanonsText(ls);
    m := PrefixAtLineBreak(Canons(ls), p);
    assert Canons(ls)[..m] == Canons(ls[..m]);
  }

  lemma FileEnds(ls: seq<Line>)
    requires ls != []
    ensures File(ls) != "" && File(ls)[|File(ls)| - 1] == '\n'
  {
    hide Canon;
    CanonsText(ls);
    LinesOfPayload(Canons(ls));
  }

  lemma FileStarts(ls: seq<Line>)
    requires ls != []
    ensures var t := File(ls); |t| >= 3 && t[0] == '{' && t[1] == '"' && t[2] == 'f'
  {
    hide Canon;
    FileEnds(ls);
    FileFirst(ls);
    CanonStarts(ls[0]);
  }

  /** Files of well-formed records tell the records. */
  lemma FileTells(a: seq<Line>, b: seq<Line>)
    requires AllWellFormed(a) && AllWellFormed(b) && File(a) == File(b)
    ensures a == b
  {
    hide Canon, WellFormed;
    if a == [] || b == [] {
      if a != [] {
        FileEnds(a);
      }
      if b != [] {
        FileEnds(b);
      }
      assert File([]) == "";
    } else {
      CanonsText(a);
      CanonsText(b);
      LinesOfPayload(Canons(a));
      LinesOfPayload(Canons(b));
      ParseAllCanons(a);
      ParseAllCanons(b);
    }
  }

  lemma WellFormedParts(a: seq<Line>, b: seq<Line>)
    requires AllWellFormed(a)
    ensures b <= a ==> AllWellFormed(b)
    ensures forall n: nat :: n <= |a| ==> AllWellFormed(a[n..])
  {
    hide WellFormed;
  }

  /** The last chunk, when the whole is a file of records: it begins at a line and holds whole records. */
  lemma LastChunk(ls: seq<Line>, block: seq<Line>, a: string, q: string) returns (n: nat, m: nat)
    requires AllWellFormed(ls) && AllWellFormed(block)
    requires File(ls) == a + q && q != "" && q <= File(block)
    ensures n < |ls| && 0 < m <= |block| && a == File(ls[..n]) && ls[n..] == block[..m]
  {
    hide Canon, WellFormed, Payload;
    assert ls != [] by {
      assert ls == [] ==> File(ls) == "" by {
        NothingFiled();
      }
    }
    FileEnds(ls);
    assert q[|q| - 1] == (a + q)[|a + q| - 1];
    m := WholeLines(block, q);
    FileStarts(block[..m]);
    n := 0;
    if a != "" {
      StartsAtLine(ls, a, q);
      n := WholeLines(ls, a);
    } else {
      NothingFiled();
    }
    FileJoin(ls[..n], ls[n..]);
    assert ls == ls[..n] + ls[n..];
    SameRest(a, q, File(ls[n..]));
    WellFormedParts(ls, []);
    WellFormedParts(block, block[..m]);
    FileTells(ls[n..], block[..m]);
  }

  lemma NothingFiled()
    ensures File([]) == ""
  {}

  lemma SameRest(a: string, b: string, c: string)
    requires a + b == a + c
    ensures b == c
  {
    assert b == (a + b)[|a|..] && c == (a + c)[|a|..];
  }

  lemma BlockWellFormed(h: Harness, runs: seq<seq<CallResult>>, k: nat)
    requires Rendered(h) && RunsFit(h, 1, runs) && SpokenRuns(runs) && k < |runs|
    ensures AllWellFormed(Block(h, runs, k))
  {
    hide TestLines;
    assert ResultsFit(h, runs[k], h.Planned(1 + k));
    TestLinesWellFormed(h, k + 1, PoisonAt(runs, k), runs[k]);
  }

  /** Records of function k that follow records of the functions before it follow all of them. */
  lemma FollowsAll(h: Harness, runs: seq<seq<CallResult>>, k: nat, ls: seq<Line>, n: nat, m: nat)
    requires k < |runs| == |h.tests| && n < |ls| && AllLinked(h, ls) && ls[..n] <= Front(h, runs, k)
    requires 0 < m <= |Block(h, runs, k)| && ls[n..] == Block(h, runs, k)[..m]
    ensures ls <= Front(h, runs, k + 1)
  {
    hide Block, Opens, Closes;
    BlockCloses(h, runs, k, 0);
    assert ls[n] == ls[n..][0] == Block(h, runs, k)[0];
    if n > 0 {
      assert Linked(h, ls[n - 1], ls[n]);
      assert ls[n - 1] == Front(h, runs, k)[n - 1];
      CloseIsAt(h, runs, k, n - 1);
    }
    assert n == |Front(h, runs, k)|;
    assert ls == Front(h, runs, k) + Block(h, runs, k)[..m];
  }

  lemma {:induction false} Unbroken(h: Harness, runs: seq<seq<CallResult>>, chunks: seq<string>, k: nat, ls: seq<Line>)
    requires Rendered(h) && RunsFit(h, 1, runs) && SpokenRuns(runs) && Leaves(h, runs, chunks) && k <= |chunks|
    requires Glued(chunks[..k]) == File(ls) && AllWellFormed(ls) && AllLinked(h, ls)
    ensures ls <= Front(h, runs, k)
    decreases k
  {
    hide File, Block, WellFormed, Linked, Front;
    if k == 0 {
      if ls != [] {
        FileEnds(ls);
      }
    } else {
      var a, q := Glued(chunks[..k - 1]), chunks[k - 1];
      assert chunks[..k][..k - 1] == chunks[..k - 1];
      if q == "" {
        assert a + q == a;
        Unbroken(h, runs, chunks, k - 1, ls);
        FrontGrows(h, runs, k - 1, k);
      } else {
        BlockWellFormed(h, runs, k - 1);
        var n, m := LastChunk(ls, Block(h, runs, k - 1), a, q);
        WellFormedParts(ls, ls[..n]);
        Unbroken(h, runs, chunks, k - 1, ls[..n]);
        FollowsAll(h, runs, k - 1, ls, n, m);
      }
    }
  }

  lemma AcceptedLinked(h: Harness, red: Redaction, ls: seq<Line>)
    requires h.Renderable() && Accepts(h, red, ls)
    ensures AllLinked(h, ls)
  {
    hide Linked, Front;
    var runs := AcceptedIsPrefix(h, red, ls);
    FrontLinked(h, runs, |runs|);
    FrontIsRun(h, runs);
  }

  /**
   Failed writes are never trusted: when the writes of any functions of a process may fail at any byte,
   what is left is refused, or it is, byte for byte, the front of what the run would have written.
   */
  lemma LossIsRefused(h: Harness, red: Redaction, runs: seq<seq<CallResult>>, chunks: seq<string>)
    requires Rendered(h) && RunsFit(h, 1, runs) && SpokenRuns(runs) && Leaves(h, runs, chunks)
    ensures Normal(h, red, Glued(chunks)).Some? ==> Glued(chunks) != "" && Glued(chunks) <= File(Run(h, runs))
  {
    hide File, Block, WellFormed, Linked, Front, Run, Normal, Glued;
    if Normal(h, red, Glued(chunks)).Some? {
      var ls := AcceptedIsFile(h, red, Glued(chunks));
      AcceptedLinked(h, red, ls);
      assert chunks[..|chunks|] == chunks;
      Unbroken(h, runs, chunks, |chunks|, ls);
      FrontIsRun(h, runs);
      FileOfPrefix(ls, Run(h, runs));
      FileEnds(ls);
    }
  }

  /** A process that only dies, at whichever byte, is one whose last writes fail. */
  lemma {:induction false} DeathIsLoss(h: Harness, runs: seq<seq<CallResult>>, k: nat, p: string) returns (chunks: seq<string>)
    requires k <= |runs| == |h.tests| && p <= File(Front(h, runs, k))
    ensures |chunks| == k && Glued(chunks) == p
    ensures forall j :: 0 <= j < k ==> chunks[j] <= File(Block(h, runs, j))
    decreases k
  {
    hide File, Block;
    if k == 0 {
      NothingFiled();
      chunks := [];
    } else {
      var before, block := Front(h, runs, k - 1), Block(h, runs, k - 1);
      FileJoin(before, block);
      var n := if |p| <= |File(before)| then |p| else |File(before)|;
      PartOfPrefix(p, File(before), File(block), n);
      var front := DeathIsLoss(h, runs, k - 1, p[..n]);
      chunks := front + [p[n..]];
      assert chunks[..k - 1] == front;
    }
  }

  lemma PartOfPrefix(p: string, a: string, b: string, n: nat)
    requires p <= a + b && n == if |p| <= |a| then |p| else |a|
    ensures p == p[..n] + p[n..] && p[..n] <= a && p[n..] <= b
  {
    assert forall i :: 0 <= i < |p| ==> p[i] == (a + b)[i];
  }
}

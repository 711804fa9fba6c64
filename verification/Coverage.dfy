/** What a report says about changed lines, and what merging and cutting keep. */
module Coverage {
  import opened Json
  import opened Text
  import opened Blocks
  import opened Profiles
  import Wire

  // ----- merging keeps every verdict of an LCOV report -----

  lemma {:induction false} SplitSize(s: string)
    ensures |Wire.Split(s)| <= |s| + 1
    decreases |s|
  {
    if s != [] {
      SplitSize(s[1..]);
    }
  }

  lemma LineAddsRow(s: LcovState, raw: string, row: nat)
    requires Sound(s.rows) && Lines(s.rows) && LcovLine(s, raw, row).Ok?
    ensures var t := LcovLine(s, raw, row).value; Sound(t.rows) && Lines(t.rows) && s.rows <= t.rows && |t.rows| <= |s.rows| + 1
  {
    hide Entry, Blank, TrimReturns, Merged, Cut;
    var text := TrimReturns(raw);
    if !Blank(text) && text != "end_of_record" && Cut(text, ':').Some? && Cut(text, ':').value.0 == "DA" && s.open {
      var entry := Entry(s.file, Cut(text, ':').value.1);
      if entry.Some? {
        SoundNext(s.rows, entry.value);
      }
    }
  }

  lemma {:induction false} RowsOfLines(lines: seq<string>)
    requires LcovFold(lines).Ok?
    ensures var s := LcovFold(lines).value; Sound(s.rows) && Lines(s.rows) && |s.rows| <= |lines|
  {
    hide LcovLine, Sound, Lines;
    if lines == [] {
      NothingIsSound();
    } else {
      RowsOfLines(lines[..|lines| - 1]);
      LineAddsRow(LcovFold(lines[..|lines| - 1]).value, lines[|lines| - 1], |lines|);
    }
  }

  lemma NothingIsSound()
    ensures Sound([]) && Lines([])
  {}

  lemma {:induction false} TotalBounded(rows: seq<Block>, r: Block)
    requires Lines(rows)
    ensures Total(rows, r) <= |rows| * SATURATED
  {
    if rows != [] {
      var front, last := rows[..|rows| - 1], rows[|rows| - 1];
      assert rows == front + [last];
      assert last in rows && forall b :: b in front ==> b in rows;
      TotalBounded(front, r);
    }
  }

  lemma VerdictOfConcat(a: seq<Block>, b: seq<Block>, c: seq<Block>, d: seq<Block>, line: int)
    requires Verdict(a, line) == Verdict(c, line) && Verdict(b, line) == Verdict(d, line)
    ensures Verdict(a + b, line) == Verdict(c + d, line)
  {
    VerdictJoins(a, b, line);
    VerdictJoins(c, d, line);
  }

  lemma VerdictJoins(a: seq<Block>, b: seq<Block>, line: int)
    ensures Verdict(a + b, line) == (if Verdict(a, line).Executed? || Verdict(b, line).Executed? then Executed
                                     else if Verdict(a, line).NotRun? || Verdict(b, line).NotRun? then NotRun else NoBlock)
  {
    forall x
      ensures x in a + b <==> x in a || x in b
    {}
    if x :| x in a && x.Covers(line) && x.count > 0 {
      assert x in a + b;
    }
    if x :| x in b && x.Covers(line) && x.count > 0 {
      assert x in a + b;
    }
    if x :| x in a && x.Covers(line) {
      assert x in a + b;
    }
    if x :| x in b && x.Covers(line) {
      assert x in a + b;
    }
  }

  /**
   Merging never changes a verdict of an LCOV report: saturated at 2^30, and with at most 8 MiB of
   lines, no total leaves the 64-bit integers.
   */
  lemma LcovVerdictKept(text: string, p: Profile, file: string, line: int)
    requires LcovRows(text).Ok? && Holds(p, LcovRows(text).value.rows)
    ensures Verdict(Of(p.blocks, file), line) == Verdict(Of(LcovRows(text).value.rows, file), line)
  {
    hide Total, IsMerge, Verdict, LcovFold, Lines, Sound, Ascending;
    var rows := LcovRows(text).value.rows;
    RowsOfLines(Wire.Split(text));
    SplitSize(text);
    forall r | r in Of(rows, file)
      ensures Total(Of(rows, file), r) <= MAX_INT
    {
      MergeOfFile(p.blocks, rows, file);
      TotalBounded(rows, r);
    }
    MergeOfFile(p.blocks, rows, file);
    VerdictKept(Of(p.blocks, file), Of(rows, file), line);
  }

  /** A report may name a file in two ways: the verdict on a line over the blocks of both names is that of their rows. */
  lemma LcovNamesKept(text: string, p: Profile, name: string, other: string, line: int)
    requires LcovRows(text).Ok? && Holds(p, LcovRows(text).value.rows)
    ensures var rows := LcovRows(text).value.rows;
            Verdict(Of(p.blocks, name) + Of(p.blocks, other), line) == Verdict(Of(rows, name) + Of(rows, other), line)
  {
    hide Verdict, Holds, LcovRows, Of;
    var rows := LcovRows(text).value.rows;
    LcovVerdictKept(text, p, name, line);
    LcovVerdictKept(text, p, other, line);
    VerdictOfConcat(Of(p.blocks, name), Of(p.blocks, other), Of(rows, name), Of(rows, other), line);
  }

  // ----- a Go profile keeps its verdicts as long as its totals are machine integers -----

  /** The same for a Go profile, whose counts are added as they are: exactly when it holds, file by file. */
  lemma GoVerdictExact(text: string, p: Profile, file: string, line: int)
    requires GoRows(text).Ok? && Holds(p, GoRows(text).value.rows)
    ensures var rows := Of(GoRows(text).value.rows, file);
            && (Verdict(Of(p.blocks, file), line) == Verdict(rows, line)
                <==> ((exists r :: r in rows && r.Covers(line) && r.count > 0) ==> Shows(rows, line)))
            && ((forall r :: r in rows ==> Total(rows, r) <= MAX_INT) ==> Verdict(Of(p.blocks, file), line) == Verdict(rows, line))
  {
    hide Total, IsMerge, Verdict, GoFold, Sound, Ascending, Shows;
    var all := GoRows(text).value.rows;
    var rows := Of(all, file);
    assert Counted(rows);
    MergeOfFile(p.blocks, all, file);
    VerdictExact(Of(p.blocks, file), rows, line);
    if forall r :: r in rows ==> Total(rows, r) <= MAX_INT {
      VerdictKept(Of(p.blocks, file), rows, line);
    }
  }

  // ----- the order of the rows -----

  lemma {:induction false} TotalOfConcat(a: seq<Block>, b: seq<Block>, r: Block)
    ensures Total(a + b, r) == Total(a, r) + Total(b, r)
    decreases |b|
  {
    if b == [] {
      assert a + b == a;
    } else {
      TotalOfConcat(a, b[..|b| - 1], r);
      assert a + b == a + b[..|b| - 1] + [b[|b| - 1]];
      TotalNext(a + b[..|b| - 1], b[|b| - 1], r);
    }
  }

  lemma Without(s: seq<Block>, k: nat, r: Block)
    requires k < |s|
    ensures multiset(s[..k] + s[k + 1..]) == multiset(s) - multiset{s[k]}
    ensures Total(s, r) == Total(s[..k] + s[k + 1..], r) + if s[k].SameRange(r) then s[k].count else 0
  {
    hide Total;
    assert s == s[..k] + [s[k]] + s[k + 1..];
    TotalOfConcat(s[..k] + [s[k]], s[k + 1..], r);
    TotalNext(s[..k], s[k], r);
    TotalOfConcat(s[..k], s[k + 1..], r);
  }

  lemma {:induction false} TotalOfPermutation(s: seq<Block>, t: seq<Block>, r: Block)
    requires multiset(s) == multiset(t)
    ensures Total(s, r) == Total(t, r)
    decreases |s|
  {
    hide Total;
    if s == [] {
      assert t == [];
    } else {
      Without(s, 0, r);
      assert s[0] in multiset(t);
      var k :| 0 <= k < |t| && t[k] == s[0];
      Without(t, k, r);
      var u, v := s[..0] + s[1..], t[..k] + t[k + 1..];
      assert |u| < |s| && multiset(u) == multiset(s) - multiset{s[0]} && multiset(v) == multiset(t) - multiset{s[0]};
      TotalOfPermutation(u, v, r);
    }
  }

  /** The order of the rows never matters, not even where totals overflow. */
  lemma OrderIsIrrelevant(blocks: seq<Block>, rows: seq<Block>, blocks': seq<Block>, rows': seq<Block>, line: int)
    requires IsMerge(blocks, rows) && IsMerge(blocks', rows') && multiset(rows) == multiset(rows')
    ensures Verdict(blocks, line) == Verdict(blocks', line)
  {
    hide Total, Wrap, IsMerge;
    MergedExecuted(blocks, rows, line);
    MergedExecuted(blocks', rows', line);
    forall r
      ensures r in rows <==> r in rows'
      ensures Total(rows, r) == Total(rows', r)
    {
      assert r in rows <==> r in multiset(rows);
      assert r in rows' <==> r in multiset(rows');
      TotalOfPermutation(rows, rows', r);
    }
  }

  // ----- a report cut short -----

  /** The lines of a text with one more byte in front. */
  function Fronted(c: char, lines: seq<string>): seq<string>
    requires lines != []
  {
    if c == '\n' then [""] + lines else [[c] + lines[0]] + lines[1..]
  }

  ghost predicate Begins(p: seq<string>, all: seq<string>) {
    0 < |p| <= |all| && p[..|p| - 1] == all[..|p| - 1] && p[|p| - 1] <= all[|p| - 1]
  }

  lemma BeginsFronted(c: char, p: seq<string>, all: seq<string>)
    requires Begins(p, all)
    ensures Begins(Fronted(c, p), Fronted(c, all))
  {
    var n := |p| - 1;
    if c == '\n' {
      assert ([""] + p)[..n + 1] == [""] + p[..n] && ([""] + all)[..n + 1] == [""] + all[..n];
    } else {
      SameStart(c, p, all);
    }
  }

  lemma SameStart(c: char, p: seq<string>, all: seq<string>)
    requires Begins(p, all) && c != '\n'
    ensures Begins(Fronted(c, p), Fronted(c, all))
  {
    var n := |p| - 1;
    var q, r := Fronted(c, p), Fronted(c, all);
    if n == 0 {
      assert q[..0] == r[..0];
    } else {
      assert p[0] == p[..n][0] == all[..n][0] == all[0];
      assert p[1..][..n - 1] == p[..n][1..] && all[1..][..n - 1] == all[..n][1..];
      assert q[..n] == [[c] + p[0]] + p[1..][..n - 1] && r[..n] == [[c] + all[0]] + all[1..][..n - 1];
    }
  }

  lemma {:induction false} SplitPrefix(s: string, k: nat)
    requires k <= |s|
    ensures Begins(Wire.Split(s[..k]), Wire.Split(s))
    decreases k
  {
    hide Begins;
    if k > 0 {
      assert s[..k][1..] == s[1..][..k - 1];
      SplitPrefix(s[1..], k - 1);
      BeginsFronted(s[0], Wire.Split(s[..k][1..]), Wire.Split(s[1..]));
    } else {
      BeginsEmpty(Wire.Split(s));
    }
  }

  lemma BeginsEmpty(all: seq<string>)
    requires all != []
    ensures Begins([""], all)
  {}

  /** A cut of a report inside a record: after its SF line, before the end of its end_of_record. */
  predicate InsideRecord(text: string, k: nat)
    requires k <= |text|
  {
    var lines := Wire.Split(text[..k]);
    var whole := LcovFold(lines[..|lines| - 1]);
    whole.Ok? && whole.value.open && TrimReturns(lines[|lines| - 1]) != "end_of_record"
  }

  lemma OpenStays(s: LcovState, raw: string, row: nat)
    requires s.open && TrimReturns(raw) != "end_of_record" && LcovLine(s, raw, row).Ok?
    ensures LcovLine(s, raw, row).value.open
  {
    hide Entry, Blank, TrimReturns, WithRow, Cut;
  }

  lemma ClosedKeepsRows(s: LcovState, raw: string, row: nat)
    requires !s.open || TrimReturns(raw) == "end_of_record"
    requires LcovLine(s, raw, row).Ok?
    ensures LcovLine(s, raw, row).value.rows == s.rows
  {
    hide Entry, Blank, TrimReturns, WithRow, Cut;
  }

  lemma {:induction false} RowsGrow(lines: seq<string>, j: nat)
    requires j <= |lines| && LcovFold(lines).Ok?
    ensures LcovFold(lines[..j]).Ok? && LcovFold(lines[..j]).value.rows <= LcovFold(lines).value.rows
    decreases |lines|
  {
    hide LcovLine;
    if j == |lines| {
      assert lines[..j] == lines;
    } else {
      var front := lines[..|lines| - 1];
      assert front[..j] == lines[..j];
      RowsGrow(front, j);
      RowsOfLines(front);
      LineAddsRow(LcovFold(front).value, lines[|lines| - 1], |lines|);
    }
  }

  /**
   A shortened report never reads as a shorter record: every prefix of an accepted report that ends
   inside a record is refused, and a prefix that is accepted has read exactly the rows of the
   records it completes, a prefix of the rows of the whole report.
   */
  lemma CutNeverShortens(text: string, k: nat)
    requires LcovRows(text).Ok? && k <= |text|
    ensures InsideRecord(text, k) ==> LcovRows(text[..k]).Failed?
    ensures LcovRows(text[..k]).Ok? ==>
              var lines := Wire.Split(text[..k]);
              && LcovRows(text[..k]).value.rows == LcovFold(lines[..|lines| - 1]).value.rows
              && LcovRows(text[..k]).value.rows <= LcovRows(text).value.rows
  {
    hide LcovLine;
    SplitPrefix(text, k);
    var p, all := Wire.Split(text[..k]), Wire.Split(text);
    var j := |p| - 1;
    RowsGrow(all, j);
    var s := LcovFold(p[..j]).value;
    if LcovFold(p).Ok? {
      if s.open && TrimReturns(p[j]) != "end_of_record" {
        OpenStays(s, p[j], |p|);
      } else {
        ClosedKeepsRows(s, p[j], |p|);
      }
    }
  }

  // ----- ranges of lines -----

  const MAX_RUNS_PER_FILE: nat := 25

  datatype LineRun = LineRun(start: int, end: int, overflow: nat) {
    function Lines(): seq<int> {
      if start <= end then seq(end - start + 1, i => start + i) else []
    }
  }

  function Extend(out: seq<LineRun>, line: int): seq<LineRun> {
    if out != [] && out[|out| - 1].end + 1 == line then out[|out| - 1 := out[|out| - 1].(end := line)]
    else out + [LineRun(line, line, 0)]
  }

  function Ranges(lines: seq<int>): seq<LineRun> {
    if lines == [] then [] else Extend(Ranges(lines[..|lines| - 1]), lines[|lines| - 1])
  }

  function Spelled(rs: seq<LineRun>): seq<int> {
    if rs == [] then [] else Spelled(rs[..|rs| - 1]) + rs[|rs| - 1].Lines()
  }

  function Folded(ranges: seq<LineRun>): seq<LineRun> {
    if |ranges| <= MAX_RUNS_PER_FILE then ranges
    else
      var rest := ranges[MAX_RUNS_PER_FILE..];
      ranges[..MAX_RUNS_PER_FILE] + [LineRun(rest[0].start, rest[|rest| - 1].end, |Spelled(rest)|)]
  }

  /** runs. */
  method Runs(lines: seq<int>) returns (out: seq<LineRun>)
    ensures out == Folded(Ranges(lines))
  {
    out := [];
    for i := 0 to |lines|
      invariant out == Ranges(lines[..i])
    {
      assert lines[..i + 1][..i] == lines[..i];
      var n := |out|;
      if n > 0 && out[n - 1].end + 1 == lines[i] {
        out := out[n - 1 := out[n - 1].(end := lines[i])];
        continue;
      }
      out := out + [LineRun(lines[i], lines[i], 0)];
    }
    assert lines[..|lines|] == lines;
    RangesShape(lines);
    if |out| <= MAX_RUNS_PER_FILE {
      return;
    }
    var rest := out[MAX_RUNS_PER_FILE..];
    var overflow := 0;
    for i := 0 to |rest|
      invariant overflow == |Spelled(rest[..i])|
    {
      assert rest[..i + 1][..i] == rest[..i];
      assert rest[i] == out[MAX_RUNS_PER_FILE + i];
      overflow := overflow + (rest[i].end - rest[i].start + 1);
    }
    assert rest[..|rest|] == rest;
    out := out[..MAX_RUNS_PER_FILE] + [LineRun(rest[0].start, rest[|rest| - 1].end, overflow)];
  }

  lemma {:induction false} RangesShape(lines: seq<int>)
    ensures forall k :: 0 <= k < |Ranges(lines)| ==> Ranges(lines)[k].start <= Ranges(lines)[k].end && Ranges(lines)[k].overflow == 0
  {
    if lines != [] {
      RangesShape(lines[..|lines| - 1]);
    }
  }

  predicate Increasing(lines: seq<int>) {
    forall i, j :: 0 <= i < j < |lines| ==> lines[i] < lines[j]
  }

  lemma SpelledNext(rs: seq<LineRun>, r: LineRun)
    ensures Spelled(rs + [r]) == Spelled(rs) + r.Lines()
  {
    assert (rs + [r])[..|rs|] == rs;
  }

  lemma LinesGrow(r: LineRun)
    requires r.start <= r.end
    ensures r.(end := r.end + 1).Lines() == r.Lines() + [r.end + 1]
  {}

  lemma SpelledExtend(out: seq<LineRun>, line: int)
    requires out != [] ==> out[|out| - 1].start <= out[|out| - 1].end
    ensures Spelled(Extend(out, line)) == Spelled(out) + [line]
  {
    hide Spelled, LineRun.Lines;
    if out != [] && out[|out| - 1].end + 1 == line {
      SpelledTouching(out);
    } else {
      SpelledNext(out, LineRun(line, line, 0));
      OneLine(line);
    }
  }

  lemma SpelledTouching(out: seq<LineRun>)
    requires out != [] && out[|out| - 1].start <= out[|out| - 1].end
    ensures var last := out[|out| - 1];
            Spelled(out[|out| - 1 := last.(end := last.end + 1)]) == Spelled(out) + [last.end + 1]
  {
    hide LineRun.Lines;
    var last := out[|out| - 1];
    var longer := out[|out| - 1 := last.(end := last.end + 1)];
    assert longer[..|out| - 1] == out[..|out| - 1];
    LinesGrow(last);
  }

  lemma OneLine(line: int)
    ensures LineRun(line, line, 0).Lines() == [line]
  {}

  lemma NoLines()
    ensures Spelled([]) == []
  {}

  lemma ExtendEnds(out: seq<LineRun>, line: int)
    ensures Extend(out, line) != [] && Extend(out, line)[|Extend(out, line)| - 1].end == line
  {}

  /** The ranges spell exactly the lines. */
  lemma {:induction false} RangesSpell(lines: seq<int>)
    ensures Spelled(Ranges(lines)) == lines
    ensures lines != [] ==> Ranges(lines) != [] && Ranges(lines)[|Ranges(lines)| - 1].end == lines[|lines| - 1]
  {
    hide Spelled, LineRun.Lines;
    if lines == [] {
      NoLines();
    } else {
      RangesSpell(lines[..|lines| - 1]);
      RangesShape(lines[..|lines| - 1]);
      SpelledExtend(Ranges(lines[..|lines| - 1]), lines[|lines| - 1]);
      ExtendEnds(Ranges(lines[..|lines| - 1]), lines[|lines| - 1]);
      hide Extend;
      assert lines == lines[..|lines| - 1] + [lines[|lines| - 1]];
    }
  }

  /** No two ranges of increasing lines overlap or touch: each is as long as it can be. */
  lemma {:induction false} RangesMaximal(lines: seq<int>)
    requires Increasing(lines)
    ensures Apart(Ranges(lines))
  {
    hide Extend, Apart, Increasing;
    if lines == [] {
      NothingApart();
    } else {
      var front, last := lines[..|lines| - 1], lines[|lines| - 1];
      IncreasingFront(lines);
      RangesMaximal(front);
      RangesSpell(front);
      RangesShape(front);
      ExtendApart(Ranges(front), last);
    }
  }

  /** No two ranges overlap or touch. */
  predicate Apart(rs: seq<LineRun>) {
    forall i, j :: 0 <= i < j < |rs| ==> rs[i].end + 1 < rs[j].start
  }

  lemma NothingApart()
    ensures Apart([])
  {}

  lemma IncreasingFront(lines: seq<int>)
    requires Increasing(lines) && lines != []
    ensures Increasing(lines[..|lines| - 1])
    ensures |lines| > 1 ==> lines[..|lines| - 1][|lines| - 2] < lines[|lines| - 1]
  {}

  lemma ExtendApart(out: seq<LineRun>, line: int)
    requires Apart(out) && forall k :: 0 <= k < |out| ==> out[k].start <= out[k].end
    requires out != [] ==> out[|out| - 1].end < line
    ensures Apart(Extend(out, line))
  {
    forall k | 0 <= k < |out| - 1
      ensures out[k].end + 1 < out[|out| - 1].start
    {}
  }

  lemma SpelledMore(a: seq<LineRun>, b: seq<LineRun>, r: LineRun)
    requires Spelled(a + b) == Spelled(a) + Spelled(b)
    ensures Spelled(a + (b + [r])) == Spelled(a) + Spelled(b + [r])
  {
    hide Spelled, LineRun.Lines;
    SpelledNext(a + b, r);
    SpelledNext(b, r);
    assert a + (b + [r]) == a + b + [r];
  }

  lemma {:induction false} SpelledConcat(a: seq<LineRun>, b: seq<LineRun>)
    ensures Spelled(a + b) == Spelled(a) + Spelled(b)
    decreases |b|
  {
    hide Spelled, LineRun.Lines;
    if b == [] {
      NoLines();
      assert a + b == a;
    } else {
      SpelledConcat(a, b[..|b| - 1]);
      SpelledMore(a, b[..|b| - 1], b[|b| - 1]);
      assert b[..|b| - 1] + [b[|b| - 1]] == b;
    }
  }

  /**
   Past 25 ranges the rest is one counted range: no line is lost, the count is the number of the
   lines that follow, and its bounds are the first and the last of them.
   */
  lemma FoldedConserves(lines: seq<int>) returns (rest: seq<int>)
    ensures var out := Folded(Ranges(lines));
            if |Ranges(lines)| <= MAX_RUNS_PER_FILE then Spelled(out) == lines && rest == []
            else
              && |out| == MAX_RUNS_PER_FILE + 1 && Spelled(out[..MAX_RUNS_PER_FILE]) + rest == lines
              && out[MAX_RUNS_PER_FILE].overflow == |rest| > 0
              && out[MAX_RUNS_PER_FILE].start == rest[0] && out[MAX_RUNS_PER_FILE].end == rest[|rest| - 1]
  {
    hide Spelled, Ranges, Folded, LineRun.Lines;
    RangesSpell(lines);
    RangesShape(lines);
    rest := [];
    if |Ranges(lines)| <= MAX_RUNS_PER_FILE {
      FoldedShort(Ranges(lines));
    } else {
      rest := FoldedLong(Ranges(lines));
    }
  }

  lemma FoldedShort(ranges: seq<LineRun>)
    ensures |ranges| <= MAX_RUNS_PER_FILE ==> Folded(ranges) == ranges
  {}

  lemma FoldedLong(ranges: seq<LineRun>) returns (rest: seq<int>)
    requires |ranges| > MAX_RUNS_PER_FILE && forall k :: 0 <= k < |ranges| ==> ranges[k].start <= ranges[k].end
    ensures var out := Folded(ranges);
            && |out| == MAX_RUNS_PER_FILE + 1 && Spelled(out[..MAX_RUNS_PER_FILE]) + rest == Spelled(ranges)
            && out[MAX_RUNS_PER_FILE].overflow == |rest| > 0
            && out[MAX_RUNS_PER_FILE].start == rest[0] && out[MAX_RUNS_PER_FILE].end == rest[|rest| - 1]
  {
    hide Spelled, LineRun.Lines;
    var kept, more := ranges[..MAX_RUNS_PER_FILE], ranges[MAX_RUNS_PER_FILE..];
    assert ranges == kept + more;
    SpelledConcat(kept, more);
    SpelledEnds(more);
    rest := Spelled(more);
    assert Folded(ranges) == kept + [LineRun(more[0].start, more[|more| - 1].end, |rest|)];
  }

  lemma {:induction false} SpelledEnds(rs: seq<LineRun>)
    requires rs != [] && forall k :: 0 <= k < |rs| ==> rs[k].start <= rs[k].end
    ensures Spelled(rs) != [] && Spelled(rs)[0] == rs[0].start && Spelled(rs)[|Spelled(rs)| - 1] == rs[|rs| - 1].end
  {
    if |rs| > 1 {
      SpelledEnds(rs[..|rs| - 1]);
    } else {
      assert rs[..0] == [];
      assert Spelled(rs) == rs[0].Lines();
    }
  }
}

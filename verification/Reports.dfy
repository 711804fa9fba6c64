/**
 Go profiles as text: what the reader finds in a profile that was written, and the text at which
 merging loses a verdict.
 */
module Reports {
  import opened Json
  import opened Text
  import opened Blocks
  import opened Profiles
  import opened Coverage
  import Wire

  /** A word of printable ASCII without a space. */
  predicate Graphic(w: string) {
    w != [] && forall k :: 0 <= k < |w| ==> '!' <= w[k] <= '~'
  }

  /** Text without white space or control bytes, in UTF-8: what a file may be called. */
  predicate Word(w: string) {
    w != [] && NoControl(w) && forall k :: 0 <= k < |w| ==> SpaceLength(w[k..]) == 0
  }

  const MODES := {"set", "count", "atomic"}

  /** A row as `go test -coverprofile` writes it: a block with the columns of its range. */
  datatype Row = Row(block: Block, from: nat, to: nat) {
    predicate Writable() {
      && Word(block.file) && 1 <= block.start <= block.end <= MAX_INT && 0 <= block.count <= MAX_INT
      && block.stmts <= MAX_INT && from <= MAX_INT && to <= MAX_INT
    }

    function Span(): string
      requires Writable()
    {
      (Itoa(block.start) + "." + Itoa(from)) + "," + (Itoa(block.end) + "." + Itoa(to))
    }

    function Text(): string
      requires Writable()
    {
      (block.file + ":" + Span()) + (" " + (Itoa(block.stmts) + (" " + Itoa(block.count))))
    }
  }

  // ----- words -----

  lemma GraphicItoa(n: nat)
    ensures Graphic(Itoa(n)) && ':' !in Itoa(n) && '.' !in Itoa(n) && ',' !in Itoa(n)
  {
    hide Digits;
    DigitsOnly(n, ':');
    DigitsOnly(n, '.');
    DigitsOnly(n, ',');
  }

  lemma GraphicJoin(a: string, c: char, b: string)
    requires Graphic(a) && Graphic(b) && '!' <= c <= '~'
    ensures Graphic(a + [c] + b)
  {}

  /** What follows in ASCII makes no white space of what is none. */
  lemma SpaceAfter(a: string, x: string)
    requires a != [] && SpaceLength(a) == 0 && (x == [] || x[0] < '\U{80}')
    ensures SpaceLength(a + x) == 0
  {
    var s := a + x;
    assert forall k :: 0 <= k < |a| ==> s[k] == a[k];
  }

  lemma NoSpace(s: string)
    requires s != [] && '!' <= s[0] <= '~'
    ensures SpaceLength(s) == 0
  {}

  lemma GraphicIsWord(w: string)
    requires Graphic(w)
    ensures Word(w)
  {
    hide SpaceLength;
    forall k | 0 <= k < |w|
      ensures SpaceLength(w[k..]) == 0
    {
      NoSpace(w[k..]);
    }
  }

  lemma WordJoin(a: string, b: string)
    requires Word(a) && Graphic(b)
    ensures Word(a + b)
  {
    hide SpaceLength;
    var s := a + b;
    forall k | 0 <= k < |s|
      ensures SpaceLength(s[k..]) == 0
    {
      if k < |a| {
        assert s[k..] == a[k..] + b;
        SpaceAfter(a[k..], b);
      } else {
        assert s[k..] == b[k - |a|..];
        NoSpace(b[k - |a|..]);
      }
    }
  }

  lemma WordTail(w: string)
    requires Word(w) && |w| > 1
    ensures Word(w[1..])
  {
    hide SpaceLength;
    forall k | 0 <= k < |w[1..]|
      ensures SpaceLength(w[1..][k..]) == 0
    {
      assert w[1..][k..] == w[k + 1..];
    }
  }

  lemma WordStarts(w: string)
    requires Word(w)
    ensures SpaceLength(w) == 0
  {
    hide SpaceLength;
    assert w[0..] == w;
  }

  lemma {:induction false} WordLength(w: string, rest: string)
    requires Word(w) && (rest == [] || (rest[0] < '\U{80}' && SpaceLength(rest) > 0))
    ensures FieldLength(w + rest) == |w|
    decreases |w|
  {
    hide SpaceLength, Word;
    assert w != [] && SpaceLength(w) == 0 by {
      WordNotEmpty(w);
      WordStarts(w);
    }
    SpaceAfter(w, rest);
    assert (w + rest)[1..] == w[1..] + rest;
    if |w| == 1 {
      assert w[1..] + rest == rest;
      assert FieldLength(rest) == 0;
    } else {
      WordTail(w);
      WordLength(w[1..], rest);
    }
  }

  lemma WordNotEmpty(w: string)
    requires Word(w)
    ensures w != [] && NoControl(w)
  {}

  lemma OneField(w: string)
    requires Word(w)
    ensures Fields(w) == [w]
  {
    hide SpaceLength, FieldLength;
    WordStarts(w);
    WordLength(w, "");
    assert w + "" == w && w[..|w|] == w && w[|w|..] == [];
  }

  lemma FirstField(w: string, rest: string)
    requires Word(w)
    ensures Fields(w + (" " + rest)) == [w] + Fields(rest)
  {
    hide FieldLength, Word;
    var s := w + (" " + rest);
    WordNotEmpty(w);
    WordStarts(w);
    SpaceAfter(w, " " + rest);
    WordLength(w, " " + rest);
    assert s[..|w|] == w && s[|w|..] == " " + rest;
    assert (" " + rest)[1..] == rest;
  }

  lemma ThreeFields(a: string, b: string, c: string)
    requires Word(a) && Graphic(b) && Graphic(c)
    ensures Fields(a + (" " + (b + (" " + c)))) == [a, b, c]
  {
    hide Fields, Graphic, Word;
    GraphicIsWord(b);
    GraphicIsWord(c);
    FirstField(a, b + (" " + c));
    FirstField(b, c);
    OneField(c);
  }

  lemma {:induction false} LastByteIs(a: string, c: char, b: string)
    requires c !in b
    ensures LastByte(a + [c] + b, c) == Some(|a|)
    decreases |b|
  {
    var s := a + [c] + b;
    if b != [] {
      assert s[..|s| - 1] == a + [c] + b[..|b| - 1];
      LastByteIs(a, c, b[..|b| - 1]);
    }
  }

  lemma CutIs(a: string, c: char, b: string)
    requires c !in a
    ensures Profiles.Cut(a + [c] + b, c) == Some((a, b))
  {
    FirstByteIs(a, c, b);
    SplitAt(a, c, b);
  }

  // ----- one row -----

  lemma PositionOf(line: nat, column: nat)
    requires line <= MAX_INT && column <= MAX_INT
    ensures Position(Itoa(line) + "." + Itoa(column)) == Some(line)
  {
    hide Itoa, Profiles.Cut, Atoi;
    GraphicItoa(line);
    CutIs(Itoa(line), '.', Itoa(column));
    AtoiOfItoa(line);
    AtoiOfItoa(column);
  }

  lemma SpanIsRead(r: Row)
    requires r.Writable()
    ensures ParseSpan(r.block.file, r.Span(), r.block.stmts, r.block.count) == Some(r.block)
    ensures Graphic(r.Span()) && ':' !in r.Span()
  {
    hide Itoa, Profiles.Cut, Position;
    var b := r.block;
    GraphicItoa(b.start);
    GraphicItoa(b.end);
    GraphicItoa(r.from);
    GraphicItoa(r.to);
    PositionOf(b.start, r.from);
    PositionOf(b.end, r.to);
    var x, y := Itoa(b.start) + "." + Itoa(r.from), Itoa(b.end) + "." + Itoa(r.to);
    CutIs(x, ',', y);
    GraphicJoin(Itoa(b.start), '.', Itoa(r.from));
    GraphicJoin(Itoa(b.end), '.', Itoa(r.to));
    GraphicJoin(x, ',', y);
  }

  /** A written row is read as its block, whatever its file is called. */
  lemma RowIsRead(r: Row)
    requires r.Writable()
    ensures ParseBlock(r.Text()) == Some(r.block)
  {
    hide Itoa, ParseSpan, Fields, LastByte, Row.Span, Atoi;
    var b := r.block;
    SpanIsRead(r);
    GraphicItoa(b.stmts);
    GraphicItoa(b.count);
    ColonFirst(r.Span());
    WordJoin(b.file, ":" + r.Span());
    assert b.file + (":" + r.Span()) == b.file + ":" + r.Span();
    ThreeFields(b.file + ":" + r.Span(), Itoa(b.stmts), Itoa(b.count));
    LastByteIs(b.file, ':', r.Span());
    SplitAt(b.file, ':', r.Span());
    AtoiOfItoa(b.stmts);
    AtoiOfItoa(b.count);
  }

  /** It is one line, not blank, that ends with no carriage return. */
  lemma RowIsLine(r: Row)
    requires r.Writable()
    ensures NoControl(r.Text()) && TrimReturns(r.Text()) == r.Text() && !Blank(r.Text())
  {
    hide Itoa, Row.Span, Blank, TrimReturns, Graphic, NoControl;
    var b := r.block;
    SpanIsRead(r);
    GraphicItoa(b.stmts);
    GraphicItoa(b.count);
    ColonFirst(r.Span());
    WordsAreLine(b.file, ":" + r.Span(), Itoa(b.stmts), Itoa(b.count));
    assert b.file + (":" + r.Span()) == b.file + ":" + r.Span();
  }

  lemma ColonFirst(w: string)
    requires Graphic(w)
    ensures Graphic(":" + w)
  {}

  lemma WordsAreLine(a: string, rest: string, b: string, c: string)
    requires Word(a) && Graphic(rest) && Graphic(b) && Graphic(c)
    ensures var t := (a + rest) + (" " + (b + (" " + c)));
            NoControl(t) && TrimReturns(t) == t && !Blank(t)
  {
    hide SpaceLength;
    var t := (a + rest) + (" " + (b + (" " + c)));
    assert t[|t| - 1] == c[|c| - 1];
    WordStarts(a);
    SpaceAfter(a, rest + (" " + (b + (" " + c))));
    assert t == a + (rest + (" " + (b + (" " + c))));
  }

  lemma FirstByteTells(t: string)
    requires t != [] && '!' <= t[0] <= '~'
    ensures !Blank(t)
  {
    NoSpace(t);
  }

  // ----- the whole text -----

  predicate AllWritable(rows: seq<Row>) {
    forall k :: 0 <= k < |rows| ==> rows[k].Writable()
  }

  function RowLines(rows: seq<Row>): (ls: seq<string>)
    requires AllWritable(rows)
    ensures |ls| == |rows| && forall k :: 0 <= k < |ls| ==> ls[k] == rows[k].Text()
  {
    seq(|rows|, k requires 0 <= k < |rows| => rows[k].Text())
  }

  function BlocksOf(rows: seq<Row>): (bs: seq<Block>)
    ensures |bs| == |rows| && forall k :: 0 <= k < |bs| ==> bs[k] == rows[k].block
  {
    seq(|rows|, k requires 0 <= k < |rows| => rows[k].block)
  }

  /** The text of a profile of these rows. */
  function Written(mode: string, rows: seq<Row>): string
    requires AllWritable(rows)
  {
    Wire.Payload(["mode: " + mode] + RowLines(rows))
  }

  lemma {:induction false} MergedSize(rows: seq<Block>)
    ensures |Merged(rows)| <= |rows|
  {
    if rows != [] {
      MergedSize(rows[..|rows| - 1]);
    }
  }

  lemma FoldNext(lines: seq<string>, line: string)
    ensures GoFold(lines + [line]) == match GoFold(lines)
                                      case Failed(why) => Failed(why)
                                      case Ok(s) => GoLine(s, line, |lines| + 1)
  {
    assert (lines + [line])[..|lines|] == lines;
  }

  lemma ModeLine(mode: string)
    requires mode in MODES
    ensures GoFold(["mode: " + mode]) == Ok(GoState(mode, []))
  {
    var line := "mode: " + mode;
    FirstByteTells(line);
    var lines := [line];
    assert lines[..0] == [];
    assert line[|"mode: "|..] == mode && line[|line| - 1] == mode[|mode| - 1];
    assert TrimReturns(line) == line;
    assert "mode: " + "set" == "mode: set" && "mode: " + "count" == "mode: count" && "mode: " + "atomic" == "mode: atomic";
  }

  lemma RowTaken(s: GoState, mode: string, r: Row, row: nat)
    requires r.Writable() && s.mode == mode && mode in MODES && |s.rows| < MAX_BLOCKS
    ensures GoLine(s, r.Text(), row) == Ok(GoState(mode, s.rows + [r.block]))
  {
    hide ParseBlock, Blank, TrimReturns, Row.Text;
    RowIsLine(r);
    RowIsRead(r);
    MergedSize(s.rows);
  }

  lemma {:induction false} RowsTaken(mode: string, rows: seq<Row>)
    requires mode in MODES && AllWritable(rows) && |rows| <= MAX_BLOCKS
    ensures GoFold(["mode: " + mode] + RowLines(rows)) == Ok(GoState(mode, BlocksOf(rows)))
    decreases |rows|
  {
    hide Row.Text, GoLine, GoFold;
    if rows == [] {
      ModeLine(mode);
      assert ["mode: " + mode] + RowLines(rows) == ["mode: " + mode];
      assert BlocksOf(rows) == [];
    } else {
      var front, last := rows[..|rows| - 1], rows[|rows| - 1];
      RowsTaken(mode, front);
      assert ["mode: " + mode] + RowLines(rows) == ["mode: " + mode] + RowLines(front) + [last.Text()];
      FoldNext(["mode: " + mode] + RowLines(front), last.Text());
      RowTaken(GoState(mode, BlocksOf(front)), mode, last, |front| + 2);
      assert BlocksOf(front) + [last.block] == BlocksOf(rows);
    }
  }

  /** The reader finds in a written profile exactly the rows that were written, in order. */
  lemma WrittenIsRead(mode: string, rows: seq<Row>)
    requires mode in MODES && AllWritable(rows) && |rows| <= MAX_BLOCKS && |Written(mode, rows)| <= MAX_PROFILE_BYTES
    ensures GoRows(Written(mode, rows)) == Ok(GoState(mode, BlocksOf(rows)))
  {
    hide Row.Text, GoLine, GoFold;
    var lines := ["mode: " + mode] + RowLines(rows);
    forall k | 0 <= k < |lines|
      ensures NoControl(lines[k])
    {
      if k > 0 {
        RowIsLine(rows[k - 1]);
      }
    }
    Wire.SplitOfPayload(lines);
    RowsTaken(mode, rows);
    FoldNext(lines, "");
    BlankLine(GoState(mode, BlocksOf(rows)), |lines| + 1);
  }

  lemma BlankLine(s: GoState, row: nat)
    ensures GoLine(s, "", row) == Ok(s)
  {}

  // ----- a verdict lost -----

  /** Two rows of one range. */
  function Twice(file: string, start: int, end: int, x: int, y: int): (rows: seq<Row>)
    requires Word(file) && 1 <= start <= end <= MAX_INT && 0 <= x <= MAX_INT && 0 <= y <= MAX_INT
    ensures AllWritable(rows)
  {
    [Row(Block(file, start, end, 1, x), 1, 1), Row(Block(file, start, end, 1, y), 1, 1)]
  }

  lemma ItoaWidth(n: nat)
    requires n <= MAX_INT
    ensures |Itoa(n)| <= 19
  {
    assert Pow10(19) == 10_000_000_000_000_000_000 by {
      assert Pow10(5) == 100_000;
      assert Pow10(10) == 10_000_000_000;
      assert Pow10(15) == 1_000_000_000_000_000;
    }
    DigitsWidth(n, 19);
  }

  lemma RowSize(r: Row)
    requires r.Writable()
    ensures |r.Text()| <= |r.block.file| + 120
  {
    hide Itoa;
    ItoaWidth(r.block.start);
    ItoaWidth(r.block.end);
    ItoaWidth(r.from);
    ItoaWidth(r.to);
    ItoaWidth(r.block.stmts);
    ItoaWidth(r.block.count);
  }

  /** The text is within the size limit. */
  lemma TwiceFits(mode: string, file: string, start: int, end: int, x: int, y: int)
    requires mode in MODES && Word(file) && 1 <= start <= end <= MAX_INT && 0 <= x <= MAX_INT && 0 <= y <= MAX_INT
    requires |file| <= 4_000_000
    ensures |Written(mode, Twice(file, start, end, x, y))| <= MAX_PROFILE_BYTES
  {
    hide Row.Text;
    var rows := Twice(file, start, end, x, y);
    var ls := ["mode: " + mode] + RowLines(rows);
    RowSize(rows[0]);
    RowSize(rows[1]);
    assert |ls| == 3;
    assert Wire.Payload(ls[3..]) == "";
    assert ls[2..][1..] == ls[3..] && ls[1..][1..] == ls[2..];
    assert |Wire.Payload(ls[2..])| == |ls[2]| + 1;
    assert |Wire.Payload(ls[1..])| == |ls[1]| + |ls[2]| + 2;
  }

  lemma TwiceIsRead(mode: string, file: string, start: int, end: int, x: int, y: int)
    requires mode in MODES && Word(file) && 1 <= start <= end <= MAX_INT && 0 <= x <= MAX_INT && 0 <= y <= MAX_INT
    requires |file| <= 4_000_000
    ensures var rows := Twice(file, start, end, x, y); GoRows(Written(mode, rows)) == Ok(GoState(mode, BlocksOf(rows)))
  {
    hide Written, GoRows;
    TwiceFits(mode, file, start, end, x, y);
    WrittenIsRead(mode, Twice(file, start, end, x, y));
  }

  lemma TwiceTotal(a: Block, b: Block)
    requires a.SameRange(b)
    ensures Total([a, b], a) == a.count + b.count && Total([a, b], b) == a.count + b.count
  {
    assert [a, b][..1] == [a] && [a][..0] == [];
    assert Total([a], a) == a.count && Total([a], b) == a.count;
  }

  lemma WrapsBelow(n: int)
    requires MAX_INT < n <= 2 * MAX_INT
    ensures Wrap(n) < 0
  {
    RemainderIs(n + MAX_INT + 1, 1, n - MAX_INT - 1);
  }

  lemma OfBoth(a: Block, b: Block)
    requires a.file == b.file
    ensures Of([a, b], a.file) == [a, b]
  {
    assert [a, b][..1] == [a] && [a][..0] == [];
    assert Of([a], a.file) == [a];
  }

  /**
   Where it fails, as a text: a profile of two rows of one range whose counts add up to more than
   a 64-bit integer holds is accepted with both rows; the line ran, and the profile says it did not.
   */
  lemma GoVerdictLost(mode: string, file: string, start: int, end: int, x: int, y: int, line: int, p: Profile)
    requires mode in MODES && Word(file) && 1 <= start <= line <= end <= MAX_INT
    requires 0 <= x <= MAX_INT && 0 <= y <= MAX_INT && x + y > MAX_INT
    requires |file| <= 4_000_000 && Holds(p, BlocksOf(Twice(file, start, end, x, y)))
    ensures var text, rows := Written(mode, Twice(file, start, end, x, y)), BlocksOf(Twice(file, start, end, x, y));
            && GoRows(text) == Ok(GoState(mode, rows))
            && Verdict(Of(rows, file), line) == Executed && Verdict(Of(p.blocks, file), line) == NotRun
  {
    hide Written, GoRows, Verdict, Total, Ascending, Wrap, IsMerge, Row.Text, Counted;
    var rows := BlocksOf(Twice(file, start, end, x, y));
    TwiceIsRead(mode, file, start, end, x, y);
    var a, b := rows[0], rows[1];
    assert rows == [a, b];
    OfBoth(a, b);
    MergeOfFile(p.blocks, rows, file);
    LostOfRows(Of(p.blocks, file), a, b, line);
  }

  lemma LostOfRows(blocks: seq<Block>, a: Block, b: Block, line: int)
    requires IsMerge(blocks, [a, b]) && a.SameRange(b) && a.Covers(line)
    requires 0 <= a.count <= MAX_INT && 0 <= b.count <= MAX_INT && a.count + b.count > MAX_INT
    ensures Verdict([a, b], line) == Executed && Verdict(blocks, line) == NotRun
  {
    hide IsMerge, Wrap, Total;
    MergedExecuted(blocks, [a, b], line);
    TwiceTotal(a, b);
    WrapsBelow(a.count + b.count);
    assert a in [a, b] && b in [a, b];
    assert !Shows([a, b], line);
  }
}

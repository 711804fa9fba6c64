/** The readers of Go profiles and LCOV reports: a loop over lines, an index of keys, a sort. */
module Profiles {
  import opened Json
  import opened Text
  import opened Blocks
  import Wire

  const MAX_PROFILE_BYTES: nat := 0x80_0000
  const MAX_BLOCKS: nat := 200000
  const SATURATED: nat := 0x4000_0000

  datatype Failure = BlockLimit | Format | Truncated | Malformed(line: nat)
  datatype Profile = Profile(mode: string, blocks: seq<Block>)
  datatype Result<+T> = Ok(value: T) | Failed(why: Failure)

  // ----- rows of a Go profile (parseBlock) -----

  /** The text before and after the first separator. */
  function Cut(s: string, c: char): (r: Option<(string, string)>) {
    var at := FirstByte(s, c);
    if at == |s| then None else Some((s[..at], s[at + 1..]))
  }

  function Position(s: string): Option<nat> {
    match Cut(s, '.')
    case None => None
    case Some(parts) => if Count(parts.1).None? then None else Count(parts.0)
  }

  function ParseSpan(file: string, span: string, stmts: nat, count: nat): (r: Option<Block>)
    ensures r.Some? ==> 1 <= r.value.start <= r.value.end && r.value.count == count
  {
    match Cut(span, ',')
    case None => None
    case Some(parts) =>
      match (Position(parts.0), Position(parts.1))
      case (Some(start), Some(end)) => if start < 1 || end < start then None else Some(Block(file, start, end, stmts, count))
      case _ => None
  }

  function ParseBlock(text: string): (r: Option<Block>)
    ensures r.Some? ==> 1 <= r.value.start <= r.value.end && 0 <= r.value.count <= MAX_INT
  {
    var fields := Fields(text);
    if |fields| != 3 then None
    else match LastByte(fields[0], ':')
         case None => None
         case Some(colon) =>
           if colon == 0 || colon == |fields[0]| - 1 then None
           else match (Count(fields[1]), Count(fields[2]))
                case (Some(stmts), Some(count)) => ParseSpan(fields[0][..colon], fields[0][colon + 1..], stmts, count)
                case _ => None
  }

  // ----- lines of an LCOV report -----

  const FIELDS := {"TN", "SF", "VER", "FN", "FNDA", "FNF", "FNH", "FNL", "FNA", "BRDA", "BRF", "BRH", "DA", "LF", "LH"}

  /** strings.Split(s, ","). */
  function Commas(s: string): (r: seq<string>)
    ensures r != []
    decreases |s|
  {
    var at := FirstByte(s, ',');
    if at == |s| then [s] else [s[..at]] + Commas(s[at + 1..])
  }

  /**
   strconv.ParseUint as the reader uses it: a number past 64 bits saturates, at the digit where it
   leaves them, so nothing after that digit is looked at.
   */
  function Saturating(acc: nat, s: string): (r: Option<nat>)
    ensures r.Some? ==> r.value <= SATURATED
    decreases |s|
  {
    if s == [] then Some(if acc > SATURATED then SATURATED else acc)
    else if !IsDigit(s[0]) then None
    else
      var next := 10 * acc + (s[0] - '0') as int;
      if next >= WORD then Some(SATURATED) else Saturating(next, s[1..])
  }

  /** lcovLine. */
  function Entry(file: string, value: string): (r: Option<Block>)
    ensures r.Some? ==> 1 <= r.value.start == r.value.end && 0 <= r.value.count <= SATURATED
  {
    var parts := Commas(value);
    if |parts| != 2 && |parts| != 3 then None
    else match Count(parts[0])
         case None => None
         case Some(line) =>
           if line < 1 || parts[1] == [] then None
           else match Saturating(0, parts[1])
                case None => None
                case Some(count) => Some(Block(file, line, line, 1, count))
  }

  // ----- what the readers have read after some lines -----

  /** A fold of the rows into the merged blocks, refused past the block limit. */
  function WithRow(rows: seq<Block>, b: Block): Result<seq<Block>> {
    if Find(Merged(rows), b) == |Merged(rows)| >= MAX_BLOCKS then Failed(BlockLimit) else Ok(rows + [b])
  }

  datatype GoState = GoState(mode: string, rows: seq<Block>)

  function GoLine(s: GoState, raw: string, row: nat): Result<GoState> {
    var text := TrimReturns(raw);
    if Blank(text) then Ok(s)
    else if s.mode == "" then
      if text in {"mode: set", "mode: count", "mode: atomic"} then Ok(s.(mode := text[|"mode: "|..])) else Failed(Format)
    else match ParseBlock(text)
         case None => Failed(Malformed(row))
         case Some(b) => match WithRow(s.rows, b) case Ok(rows) => Ok(s.(rows := rows)) case Failed(why) => Failed(why)
  }

  function GoFold(lines: seq<string>): Result<GoState> {
    if lines == [] then Ok(GoState("", []))
    else match GoFold(lines[..|lines| - 1])
         case Failed(why) => Failed(why)
         case Ok(s) => GoLine(s, lines[|lines| - 1], |lines|)
  }

  datatype LcovState = LcovState(file: string, open: bool, records: nat, rows: seq<Block>)

  function LcovLine(s: LcovState, raw: string, row: nat): Result<LcovState> {
    var text := TrimReturns(raw);
    if Blank(text) then Ok(s)
    else if text == "end_of_record" then if s.open then Ok(s.(file := "", open := false)) else Failed(Malformed(row))
    else match Cut(text, ':')
         case None => Failed(Malformed(row))
         case Some((field, value)) =>
           if field !in FIELDS then Failed(Malformed(row))
           else if field == "SF" then
             if s.open || value == "" then Failed(Malformed(row))
             else Ok(s.(file := value, open := true, records := s.records + 1))
           else if field == "DA" then
             if !s.open then Failed(Malformed(row))
             else match Entry(s.file, value)
                  case None => Failed(Malformed(row))
                  case Some(b) => (match WithRow(s.rows, b) case Ok(rows) => Ok(s.(rows := rows)) case Failed(why) => Failed(why))
           else if field != "TN" && field != "VER" && !s.open then Failed(Malformed(row))
           else Ok(s)
  }

  function LcovFold(lines: seq<string>): Result<LcovState> {
    if lines == [] then Ok(LcovState("", false, 0, []))
    else match LcovFold(lines[..|lines| - 1])
         case Failed(why) => Failed(why)
         case Ok(s) => LcovLine(s, lines[|lines| - 1], |lines|)
  }

  /** What an accepted text says, row by row, and why any other is refused. */
  function GoRows(text: string): Result<GoState> {
    if |text| > MAX_PROFILE_BYTES then Failed(BlockLimit)
    else match GoFold(Wire.Split(text))
         case Failed(why) => Failed(why)
         case Ok(s) => if s.mode == "" then Failed(Format) else Ok(s)
  }

  function LcovRows(text: string): Result<LcovState> {
    if |text| > MAX_PROFILE_BYTES then Failed(BlockLimit)
    else match LcovFold(Wire.Split(text))
         case Failed(why) => Failed(why)
         case Ok(s) => if s.open then Failed(Truncated) else if s.records == 0 then Failed(Format) else Ok(s)
  }

  // ----- the keys of the merge index -----

  function Key(b: Block): string {
    b.file + ":" + (Itoa(b.start) + "." + Itoa(b.end))
  }

  function LineKey(b: Block): string {
    b.file + ":" + Itoa(b.start)
  }

  lemma LastColon(a: string, b: string, c: string, d: string)
    requires a + ":" + b == c + ":" + d && ':' !in b && ':' !in d
    ensures a == c && b == d
  {
    var s, t := a + ":" + b, c + ":" + d;
    assert s[|a|] == ':' && forall i :: |a| < i < |s| ==> s[i] == b[i - |a| - 1] != ':';
    assert t[|c|] == ':' && forall i :: |c| < i < |t| ==> t[i] == d[i - |c| - 1] != ':';
    SplitAt(a, ':', b);
    SplitAt(c, ':', d);
  }

  lemma DigitsOnly(n: nat, c: char)
    requires !IsDigit(c)
    ensures c !in Itoa(n)
  {}

  /**
   Two rows share a key of the merge index exactly when they are about the same range, although
   file names may hold colons, dots and digits.
   */
  lemma KeyIsRange(a: Block, b: Block)
    requires a.start >= 0 && a.end >= 0 && b.start >= 0 && b.end >= 0
    ensures Key(a) == Key(b) <==> a.SameRange(b)
  {
    if Key(a) == Key(b) {
      hide Itoa;
      DigitsOnly(a.start, ':');
      DigitsOnly(a.end, ':');
      DigitsOnly(b.start, ':');
      DigitsOnly(b.end, ':');
      LastColon(a.file, Itoa(a.start) + "." + Itoa(a.end), b.file, Itoa(b.start) + "." + Itoa(b.end));
      DigitsOnly(a.start, '.');
      DigitsOnly(b.start, '.');
      FirstByteIs(Itoa(a.start), '.', Itoa(a.end));
      FirstByteIs(Itoa(b.start), '.', Itoa(b.end));
      SplitAt(Itoa(a.start), '.', Itoa(a.end));
      SplitAt(Itoa(b.start), '.', Itoa(b.end));
      ItoaInjective(a.start, b.start);
      ItoaInjective(a.end, b.end);
    }
  }

  lemma SplitAt(a: string, c: char, b: string)
    ensures (a + [c] + b)[..|a|] == a && (a + [c] + b)[|a| + 1..] == b
  {}

  lemma LineKeyIsRange(a: Block, b: Block)
    requires 0 <= a.start == a.end && 0 <= b.start == b.end
    ensures LineKey(a) == LineKey(b) <==> a.SameRange(b)
  {
    if LineKey(a) == LineKey(b) {
      hide Itoa;
      DigitsOnly(a.start, ':');
      DigitsOnly(b.start, ':');
      LastColon(a.file, Itoa(a.start), b.file, Itoa(b.start));
      ItoaInjective(a.start, b.start);
    }
  }

  /** The index of a merge: every block's key, and no other, with the position of the block. */
  ghost predicate Indexes(index: map<string, nat>, blocks: seq<Block>, key: Block -> string) {
    && (forall i :: 0 <= i < |blocks| ==> key(blocks[i]) in index && index[key(blocks[i])] == i)
    && (forall k :: k in index ==> index[k] < |blocks| && key(blocks[index[k]]) == k)
  }

  ghost predicate KeysAreRanges(blocks: seq<Block>, b: Block, key: Block -> string) {
    forall i :: 0 <= i < |blocks| ==> (key(blocks[i]) == key(b) <==> blocks[i].SameRange(b))
  }

  lemma IndexFinds(index: map<string, nat>, blocks: seq<Block>, b: Block, key: Block -> string)
    requires Indexes(index, blocks, key) && KeysAreRanges(blocks, b, key)
    ensures key(b) in index ==> index[key(b)] == Find(blocks, b) < |blocks|
    ensures key(b) !in index ==> Find(blocks, b) == |blocks|
  {
    var at := Find(blocks, b);
    if at < |blocks| {
      assert key(blocks[at]) in index;
    }
  }

  /** The key looks at the range only. */
  ghost predicate RangeKey(key: Block -> string) {
    forall a: Block, count :: key(a.(count := count)) == key(a)
  }

  lemma IndexAfter(index: map<string, nat>, blocks: seq<Block>, b: Block, key: Block -> string)
    requires Indexes(index, blocks, key) && KeysAreRanges(blocks, b, key) && RangeKey(key)
    ensures key(b) in index ==> Indexes(index, Add(blocks, b), key)
    ensures key(b) !in index ==> Indexes(index[key(b) := |blocks|], Add(blocks, b), key)
  {
    hide Wrap;
    IndexFinds(index, blocks, b, key);
  }

  predicate Sound(rows: seq<Block>) {
    forall r :: r in rows ==> 1 <= r.start <= r.end && 0 <= r.count <= MAX_INT
  }

  predicate Lines(rows: seq<Block>) {
    forall r :: r in rows ==> r.start == r.end && r.count <= SATURATED
  }

  lemma MergedRanges(rows: seq<Block>)
    requires Sound(rows)
    ensures forall b :: b in Merged(rows) ==> 1 <= b.start <= b.end
    ensures Lines(rows) ==> forall b :: b in Merged(rows) ==> b.start == b.end
  {
    hide Total, Wrap;
    MergedIsMerge(rows);
    forall b | b in Merged(rows)
      ensures 1 <= b.start <= b.end && (Lines(rows) ==> b.start == b.end)
    {
      assert Listed(rows, b);
    }
  }

  lemma GoKeys(rows: seq<Block>, b: Block)
    requires Sound(rows + [b])
    ensures KeysAreRanges(Merged(rows), b, Key) && RangeKey(Key)
  {
    hide Key;
    assert b in rows + [b] && forall r :: r in rows ==> r in rows + [b];
    MergedRanges(rows);
    forall i | 0 <= i < |Merged(rows)|
      ensures Key(Merged(rows)[i]) == Key(b) <==> Merged(rows)[i].SameRange(b)
    {
      assert Merged(rows)[i] in Merged(rows);
      KeyIsRange(Merged(rows)[i], b);
    }
    GoRangeKey();
  }

  lemma GoRangeKey()
    ensures RangeKey(Key)
  {}

  lemma LcovKeys(rows: seq<Block>, b: Block)
    requires Sound(rows + [b]) && Lines(rows + [b])
    ensures KeysAreRanges(Merged(rows), b, LineKey) && RangeKey(LineKey)
  {
    hide LineKey;
    assert b in rows + [b] && forall r :: r in rows ==> r in rows + [b];
    MergedRanges(rows);
    forall i | 0 <= i < |Merged(rows)|
      ensures LineKey(Merged(rows)[i]) == LineKey(b) <==> Merged(rows)[i].SameRange(b)
    {
      assert Merged(rows)[i] in Merged(rows);
      LineKeyIsRange(Merged(rows)[i], b);
    }
    LcovRangeKey();
  }

  lemma LcovRangeKey()
    ensures RangeKey(LineKey)
  {}

  // ----- the readers -----

  /** A merge state of a reader: its rows so far are merged and indexed. */
  ghost predicate Merging(index: map<string, nat>, blocks: seq<Block>, rows: seq<Block>, key: Block -> string) {
    Sound(rows) && blocks == Merged(rows) && Indexes(index, blocks, key)
  }

  lemma MergedNext(rows: seq<Block>, b: Block)
    ensures Merged(rows + [b]) == Add(Merged(rows), b)
  {
    assert (rows + [b])[..|rows|] == rows;
  }

  /** One row of a reader: counted into the block of its range, or the first of a new one. */
  method Take(index: map<string, nat>, blocks: seq<Block>, b: Block, k: string, ghost rows: seq<Block>, ghost key: Block -> string)
    returns (ok: bool, index': map<string, nat>, blocks': seq<Block>)
    requires Merging(index, blocks, rows, key) && k == key(b) && Sound(rows + [b])
    requires KeysAreRanges(blocks, b, key) && RangeKey(key)
    ensures ok == WithRow(rows, b).Ok?
    ensures ok ==> Merging(index', blocks', rows + [b], key)
  {
    hide Indexes, Wrap, Sound, KeysAreRanges, RangeKey;
    IndexFinds(index, blocks, b, key);
    IndexAfter(index, blocks, b, key);
    MergedNext(rows, b);
    if k in index {
      var at := index[k];
      return true, index, blocks[at := blocks[at].(count := Wrap(blocks[at].count + b.count))];
    }
    if |blocks| >= MAX_BLOCKS {
      return false, index, blocks;
    }
    return true, index[k := |blocks|], blocks + [b];
  }

  lemma EmptyMerge(key: Block -> string)
    ensures Merging(map[], [], [], key)
  {}

  lemma SoundNext(rows: seq<Block>, b: Block)
    requires 1 <= b.start <= b.end && 0 <= b.count <= MAX_INT
    ensures Sound(rows) ==> Sound(rows + [b])
    ensures Lines(rows) && b.start == b.end && b.count <= SATURATED ==> Lines(rows + [b])
  {}

  /** The blocks of an accepted text are the merge of its rows, one block a range, in order. */
  ghost predicate Holds(p: Profile, rows: seq<Block>) {
    IsMerge(p.blocks, rows) && Ascending(p.blocks) && Counted(rows)
  }

  lemma HoldsSorted(p: Profile, rows: seq<Block>)
    requires Sound(rows) && multiset(p.blocks) == multiset(Merged(rows)) && Ascending(p.blocks)
    ensures Holds(p, rows)
  {
    assert Counted(rows);
    MergedIsMerge(rows);
    SortedIsMerge(p.blocks, Merged(rows), rows);
  }

  method ParseGoProfile(text: string) returns (r: Result<Profile>)
    ensures GoRows(text).Failed? ==> r == Failed(GoRows(text).why)
    ensures GoRows(text).Ok? ==> r.Ok? && r.value.mode == GoRows(text).value.mode && Holds(r.value, GoRows(text).value.rows)
  {
    hide Indexes, IsMerge, Ascending, Blank, TrimReturns, ParseBlock, Merged, WithRow, Sound, GoLine;
    if |text| > MAX_PROFILE_BYTES {
      return Failed(BlockLimit);
    }
    var lines := Wire.Split(text);
    var mode, index, blocks := "", map[], [];
    ghost var rows := [];
    EmptyMerge(Key);
    var i := 0;
    while i < |lines|
      invariant 0 <= i <= |lines| && GoFold(lines[..i]) == Ok(GoState(mode, rows))
      invariant Merging(index, blocks, rows, Key)
    {
      GoFoldNext(lines, i);
      GoLineCases(GoState(mode, rows), lines[i], i + 1);
      var t := TrimReturns(lines[i]);
      i := i + 1;
      if Blank(t) {
        continue;
      }
      if mode == "" {
        if t !in {"mode: set", "mode: count", "mode: atomic"} {
          GoFoldFails(lines, i);
          return Failed(Format);
        }
        mode := t[6..];
        continue;
      }
      var parsed := ParseBlock(t);
      if parsed.None? {
        GoFoldFails(lines, i);
        return Failed(Malformed(i));
      }
      GoTakes(rows, t);
      var ok, index', blocks' := Take(index, blocks, parsed.value, Key(parsed.value), rows, Key);
      if !ok {
        GoFoldFails(lines, i);
        return Failed(BlockLimit);
      }
      index, blocks := index', blocks';
      rows := rows + [parsed.value];
    }
    assert lines[..i] == lines;
    if mode == "" {
      return Failed(Format);
    }
    r := Finish(mode, blocks, rows);
  }

  method Finish(mode: string, blocks: seq<Block>, ghost rows: seq<Block>) returns (r: Result<Profile>)
    requires Sound(rows) && blocks == Merged(rows)
    ensures r.Ok? && r.value.mode == mode && Holds(r.value, rows)
  {
    hide Merged, Ascending, IsMerge;
    MergedIsMerge(rows);
    var sorted := Sort(blocks);
    HoldsSorted(Profile(mode, sorted), rows);
    r := Ok(Profile(mode, sorted));
  }

  lemma GoTakes(rows: seq<Block>, t: string)
    requires Sound(rows) && ParseBlock(t).Some?
    ensures Sound(rows + [ParseBlock(t).value])
    ensures KeysAreRanges(Merged(rows), ParseBlock(t).value, Key) && RangeKey(Key)
  {
    hide ParseBlock, Key, Merged;
    SoundNext(rows, ParseBlock(t).value);
    GoKeys(rows, ParseBlock(t).value);
  }

  lemma GoLineCases(s: GoState, raw: string, row: nat)
    ensures var t, r := TrimReturns(raw), GoLine(s, raw, row);
            && (Blank(t) ==> r == Ok(s))
            && (!Blank(t) && s.mode == "" ==>
                r == if t in {"mode: set", "mode: count", "mode: atomic"} then Ok(s.(mode := t[6..])) else Failed(Format))
            && (!Blank(t) && s.mode != "" && ParseBlock(t).None? ==> r == Failed(Malformed(row)))
            && (!Blank(t) && s.mode != "" && ParseBlock(t).Some? && WithRow(s.rows, ParseBlock(t).value).Ok? ==>
                r == Ok(s.(rows := s.rows + [ParseBlock(t).value])))
            && (!Blank(t) && s.mode != "" && ParseBlock(t).Some? && WithRow(s.rows, ParseBlock(t).value).Failed? ==>
                r == Failed(BlockLimit))
  {
    hide ParseBlock, Blank, TrimReturns, Merged;
  }

  lemma GoFoldNext(lines: seq<string>, i: nat)
    requires i < |lines| && GoFold(lines[..i]).Ok?
    ensures GoFold(lines[..i + 1]) == GoLine(GoFold(lines[..i]).value, lines[i], i + 1)
  {
    assert lines[..i + 1][..i] == lines[..i];
  }

  /** The first failure is the outcome. */
  lemma {:induction false} GoFoldFails(lines: seq<string>, i: nat)
    requires i <= |lines| && GoFold(lines[..i]).Failed?
    ensures GoFold(lines) == GoFold(lines[..i])
    decreases |lines|
  {
    if i == |lines| {
      assert lines[..i] == lines;
    } else {
      assert lines[..|lines| - 1][..i] == lines[..i];
      GoFoldFails(lines[..|lines| - 1], i);
    }
  }

  method ParseLCOV(text: string) returns (r: Result<Profile>)
    ensures LcovRows(text).Failed? ==> r == Failed(LcovRows(text).why)
    ensures LcovRows(text).Ok? ==> r.Ok? && Holds(r.value, LcovRows(text).value.rows)
  {
    hide Indexes, IsMerge, Ascending, Blank, TrimReturns, Entry, Merged, WithRow, Sound, Lines, LcovLine, Cut;
    if |text| > MAX_PROFILE_BYTES {
      return Failed(BlockLimit);
    }
    var lines := Wire.Split(text);
    var file, open, records, index, blocks := "", false, 0, map[], [];
    ghost var rows := [];
    EmptyMerge(LineKey);
    NoLines();
    var i := 0;
    while i < |lines|
      invariant 0 <= i <= |lines| && LcovFold(lines[..i]) == Ok(LcovState(file, open, records, rows))
      invariant Merging(index, blocks, rows, LineKey) && Lines(rows)
    {
      LcovFoldNext(lines, i);
      ghost var s := LcovState(file, open, records, rows);
      var t := TrimReturns(lines[i]);
      LcovLineCases(s, lines[i], i + 1);
      i := i + 1;
      if Blank(t) {
        continue;
      }
      if t == "end_of_record" {
        if !open {
          LcovFoldFails(lines, i);
          return Failed(Malformed(i));
        }
        open, file := false, "";
        continue;
      }
      var cut := Cut(t, ':');
      if cut.None? || cut.value.0 !in FIELDS {
        LcovFoldFails(lines, i);
        return Failed(Malformed(i));
      }
      LcovFieldCases(s, lines[i - 1], i);
      var field, value := cut.value.0, cut.value.1;
      if field == "SF" {
        if open || value == "" {
          LcovFoldFails(lines, i);
          return Failed(Malformed(i));
        }
        open, file, records := true, value, records + 1;
      } else if field == "DA" {
        if !open {
          LcovFoldFails(lines, i);
          return Failed(Malformed(i));
        }
        var parsed := Entry(file, value);
        if parsed.None? {
          LcovFoldFails(lines, i);
          return Failed(Malformed(i));
        }
        LcovTakes(rows, file, value);
        var ok, index', blocks' := Take(index, blocks, parsed.value, LineKey(parsed.value), rows, LineKey);
        if !ok {
          LcovFoldFails(lines, i);
          return Failed(BlockLimit);
        }
        index, blocks := index', blocks';
        rows := rows + [parsed.value];
      } else if field != "TN" && field != "VER" && !open {
        LcovFoldFails(lines, i);
        return Failed(Malformed(i));
      }
    }
    assert lines[..i] == lines;
    if open {
      return Failed(Truncated);
    }
    if records == 0 {
      return Failed(Format);
    }
    r := Finish("", blocks, rows);
  }

  lemma NoLines()
    ensures Lines([])
  {}

  lemma LcovTakes(rows: seq<Block>, file: string, value: string)
    requires Sound(rows) && Lines(rows) && Entry(file, value).Some?
    ensures Sound(rows + [Entry(file, value).value]) && Lines(rows + [Entry(file, value).value])
    ensures KeysAreRanges(Merged(rows), Entry(file, value).value, LineKey) && RangeKey(LineKey)
  {
    hide Entry, LineKey, Merged;
    SoundNext(rows, Entry(file, value).value);
    LcovKeys(rows, Entry(file, value).value);
  }

  lemma LcovLineCases(s: LcovState, raw: string, row: nat)
    ensures var t, r := TrimReturns(raw), LcovLine(s, raw, row);
            && (Blank(t) ==> r == Ok(s))
            && (!Blank(t) && t == "end_of_record" ==>
                r == if s.open then Ok(s.(file := "", open := false)) else Failed(Malformed(row)))
            && (!Blank(t) && t != "end_of_record" && (Cut(t, ':').None? || Cut(t, ':').value.0 !in FIELDS) ==>
                r == Failed(Malformed(row)))
  {
    hide Entry, Blank, TrimReturns, WithRow, Cut;
  }

  lemma LcovFieldCases(s: LcovState, raw: string, row: nat)
    requires var t := TrimReturns(raw); !Blank(t) && t != "end_of_record" && Cut(t, ':').Some? && Cut(t, ':').value.0 in FIELDS
    ensures var (field, value), r := Cut(TrimReturns(raw), ':').value, LcovLine(s, raw, row);
            && (field == "SF" ==> r == if s.open || value == "" then Failed(Malformed(row))
                                       else Ok(LcovState(value, true, s.records + 1, s.rows)))
            && (field == "DA" && (!s.open || Entry(s.file, value).None?) ==> r == Failed(Malformed(row)))
            && (field == "DA" && s.open && Entry(s.file, value).Some? ==>
                r == if WithRow(s.rows, Entry(s.file, value).value).Failed? then Failed(BlockLimit)
                     else Ok(s.(rows := s.rows + [Entry(s.file, value).value])))
            && (field != "SF" && field != "DA" ==>
                r == if field != "TN" && field != "VER" && !s.open then Failed(Malformed(row)) else Ok(s))
  {
    hide Entry, Blank, TrimReturns, Cut, Merged;
  }

  lemma LcovFoldNext(lines: seq<string>, i: nat)
    requires i < |lines| && LcovFold(lines[..i]).Ok?
    ensures LcovFold(lines[..i + 1]) == LcovLine(LcovFold(lines[..i]).value, lines[i], i + 1)
  {
    assert lines[..i + 1][..i] == lines[..i];
  }

  lemma {:induction false} LcovFoldFails(lines: seq<string>, i: nat)
    requires i <= |lines| && LcovFold(lines[..i]).Failed?
    ensures LcovFold(lines) == LcovFold(lines[..i])
    decreases |lines|
  {
    if i == |lines| {
      assert lines[..i] == lines;
    } else {
      assert lines[..|lines| - 1][..i] == lines[..i];
      LcovFoldFails(lines[..|lines| - 1], i);
    }
  }
}

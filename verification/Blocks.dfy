/** Coverage blocks: the verdict on a line, and what merging the rows of one range does to it. */
module Blocks {
  import opened Json
  import opened Text

  const WORD: int := 0x1_0000_0000_0000_0000

  datatype Block = Block(file: string, start: int, end: int, stmts: nat, count: int) {
    predicate Covers(line: int) {
      start <= line <= end
    }

    predicate SameRange(b: Block) {
      file == b.file && start == b.start && end == b.end
    }
  }

  datatype State = NoBlock | Executed | NotRun

  /** Any containing block that ran makes the line executed. */
  function Verdict(blocks: seq<Block>, line: int): State {
    if exists b :: b in blocks && b.Covers(line) && b.count > 0 then Executed
    else if exists b :: b in blocks && b.Covers(line) then NotRun
    else NoBlock
  }

  /** classify. */
  method Classify(blocks: seq<Block>, line: int) returns (state: State)
    ensures state == Verdict(blocks, line)
  {
    var found := false;
    for i := 0 to |blocks|
      invariant found <==> exists b :: b in blocks[..i] && b.Covers(line)
      invariant forall b :: b in blocks[..i] && b.Covers(line) ==> b.count <= 0
    {
      var b := blocks[i];
      assert blocks[..i + 1] == blocks[..i] + [b];
      assert b in blocks[..i + 1];
      assert forall x :: x in blocks[..i] ==> x in blocks[..i + 1];
      if line < b.start || line > b.end {
        continue;
      }
      found := true;
      if b.count > 0 {
        return Executed;
      }
    }
    assert blocks[..|blocks|] == blocks;
    return if found then NotRun else NoBlock;
  }

  /** The blocks of one file, in order. */
  function Of(blocks: seq<Block>, file: string): (r: seq<Block>)
    ensures forall b :: b in r <==> b in blocks && b.file == file
  {
    if blocks == [] then []
    else
      assert blocks == blocks[..|blocks| - 1] + [blocks[|blocks| - 1]];
      Of(blocks[..|blocks| - 1], file) + if blocks[|blocks| - 1].file == file then [blocks[|blocks| - 1]] else []
  }

  // ----- machine addition -----

  /** The value of a sum in a 64-bit integer. */
  function Wrap(n: int): (r: int)
    ensures -MAX_INT - 1 <= r <= MAX_INT
    ensures -MAX_INT - 1 <= n <= MAX_INT ==> r == n
  {
    (n + MAX_INT + 1) % WORD - MAX_INT - 1
  }

  lemma WrapAdds(m: int, n: int)
    ensures Wrap(Wrap(m) + n) == Wrap(m + n)
  {
    var k := (m + MAX_INT + 1) / WORD;
    assert Wrap(m) == m - k * WORD;
    ModMinus(m + n + MAX_INT + 1, k);
  }

  lemma ModMinus(a: int, k: int)
    ensures (a - k * WORD) % WORD == a % WORD
  {
    var q, r := a / WORD, a % WORD;
    assert a - k * WORD == (q - k) * WORD + r;
    RemainderIs(a - k * WORD, q - k, r);
  }

  lemma RemainderIs(a: int, q: int, r: int)
    requires 0 <= r < WORD && a == q * WORD + r
    ensures a % WORD == r
  {
    assert a == a / WORD * WORD + a % WORD;
  }

  // ----- merging -----

  /** The position of the block with this range, or the length. */
  function Find(blocks: seq<Block>, b: Block): (r: nat)
    ensures r <= |blocks| && (r < |blocks| ==> blocks[r].SameRange(b))
    ensures forall i :: 0 <= i < r ==> !blocks[i].SameRange(b)
  {
    if blocks == [] then 0
    else
      var r := Find(blocks[..|blocks| - 1], b);
      if r < |blocks| - 1 then r else if blocks[r].SameRange(b) then r else |blocks|
  }

  function Add(blocks: seq<Block>, b: Block): seq<Block> {
    var at := Find(blocks, b);
    if at < |blocks| then blocks[at := blocks[at].(count := Wrap(blocks[at].count + b.count))] else blocks + [b]
  }

  function Merged(rows: seq<Block>): seq<Block> {
    if rows == [] then [] else Add(Merged(rows[..|rows| - 1]), rows[|rows| - 1])
  }

  /** The exact total of the rows of one range. */
  function Total(rows: seq<Block>, r: Block): int {
    if rows == [] then 0
    else Total(rows[..|rows| - 1], r) + if rows[|rows| - 1].SameRange(r) then rows[|rows| - 1].count else 0
  }

  predicate Distinct(blocks: seq<Block>) {
    forall i, j :: 0 <= i < j < |blocks| ==> !blocks[i].SameRange(blocks[j])
  }

  predicate Counted(rows: seq<Block>) {
    forall r :: r in rows ==> 0 <= r.count <= MAX_INT
  }

  ghost predicate Listed(blocks: seq<Block>, r: Block) {
    exists b :: b in blocks && b.SameRange(r)
  }

  /** The blocks are the ranges of the rows, each with the machine total of its rows. */
  ghost predicate IsMerge(blocks: seq<Block>, rows: seq<Block>) {
    && (forall b :: b in blocks ==> Listed(rows, b) && b.count == Wrap(Total(rows, b)))
    && (forall r :: r in rows ==> Listed(blocks, r))
  }

  lemma {:induction false} TotalOfRange(rows: seq<Block>, a: Block, b: Block)
    requires a.SameRange(b)
    ensures Total(rows, a) == Total(rows, b)
  {
    if rows != [] {
      TotalOfRange(rows[..|rows| - 1], a, b);
    }
  }

  lemma TotalNext(rows: seq<Block>, x: Block, r: Block)
    ensures Total(rows + [x], r) == Total(rows, r) + if x.SameRange(r) then x.count else 0
  {
    assert (rows + [x])[..|rows|] == rows;
  }

  lemma {:induction false} TotalOfStranger(rows: seq<Block>, r: Block)
    requires !Listed(rows, r)
    ensures Total(rows, r) == 0
  {
    if rows != [] {
      var front, last := rows[..|rows| - 1], rows[|rows| - 1];
      assert last in rows && forall b :: b in front ==> b in rows;
      TotalOfStranger(front, r);
    }
  }

  lemma ListedNext(rows: seq<Block>, x: Block, r: Block)
    ensures Listed(rows + [x], r) <==> Listed(rows, r) || x.SameRange(r)
  {
    assert x in rows + [x];
    if Listed(rows, r) {
      var b :| b in rows && b.SameRange(r);
      assert b in rows + [x];
    }
  }

  lemma AddKeeps(blocks: seq<Block>, rows: seq<Block>, x: Block)
    requires IsMerge(blocks, rows) && Distinct(blocks) && 0 <= x.count <= MAX_INT
    ensures IsMerge(Add(blocks, x), rows + [x]) && Distinct(Add(blocks, x))
  {
    hide Wrap, Total, Listed;
    var at, r := Find(blocks, x), Add(blocks, x);
    forall i | 0 <= i < |r|
      ensures Listed(rows + [x], r[i]) && r[i].count == Wrap(Total(rows + [x], r[i]))
    {
      TotalNext(rows, x, r[i]);
      ListedNext(rows, x, r[i]);
      if i < |blocks| {
        assert blocks[i] in blocks;
        AddedCount(blocks[i], rows, x);
        ListedRange(rows, blocks[i], r[i]);
        TotalOfRange(rows, blocks[i], r[i]);
      } else {
        FirstOfRange(blocks, rows, x);
      }
    }
    forall row | row in rows + [x]
      ensures Listed(r, row)
    {
      if row in rows {
        ListedAfter(blocks, x, row);
      } else {
        assert r[at] in r;
        ListedBy(r, r[at], row);
      }
    }
  }

  lemma ListedBy(blocks: seq<Block>, b: Block, r: Block)
    requires b in blocks && b.SameRange(r)
    ensures Listed(blocks, r)
  {}

  lemma ListedRange(rows: seq<Block>, a: Block, b: Block)
    requires a.SameRange(b)
    ensures Listed(rows, a) <==> Listed(rows, b)
  {}

  lemma ListedAfter(blocks: seq<Block>, x: Block, r: Block)
    requires Listed(blocks, r)
    ensures Listed(Add(blocks, x), r)
  {
    var b :| b in blocks && b.SameRange(r);
    var i :| 0 <= i < |blocks| && blocks[i] == b;
    assert Add(blocks, x)[i] in Add(blocks, x);
  }

  lemma AddedCount(b: Block, rows: seq<Block>, x: Block)
    requires b.count == Wrap(Total(rows, b))
    ensures Wrap(b.count + x.count) == Wrap(Total(rows, b) + x.count)
  {
    WrapAdds(Total(rows, b), x.count);
  }

  lemma FirstOfRange(blocks: seq<Block>, rows: seq<Block>, x: Block)
    requires IsMerge(blocks, rows) && Find(blocks, x) == |blocks|
    ensures Total(rows, x) == 0
  {
    hide Total, Wrap;
    forall r | r in rows
      ensures !r.SameRange(x)
    {
      assert Listed(blocks, r);
      var i :| 0 <= i < |blocks| && blocks[i].SameRange(r);
    }
    TotalOfStranger(rows, x);
  }

  lemma {:induction false} MergedIsMerge(rows: seq<Block>)
    requires Counted(rows)
    ensures IsMerge(Merged(rows), rows) && Distinct(Merged(rows))
  {
    if rows != [] {
      var front, last := rows[..|rows| - 1], rows[|rows| - 1];
      assert rows == front + [last];
      assert last in rows && forall b :: b in front ==> b in rows;
      MergedIsMerge(front);
      AddKeeps(Merged(front), front, last);
    }
  }

  // ----- the verdict -----

  lemma {:induction false} TotalTells(rows: seq<Block>, r: Block)
    requires Counted(rows)
    ensures Total(rows, r) >= 0
    ensures Total(rows, r) > 0 <==> exists x :: x in rows && x.SameRange(r) && x.count > 0
  {
    if rows != [] {
      var front, last := rows[..|rows| - 1], rows[|rows| - 1];
      assert rows == front + [last];
      assert last in rows && forall b :: b in front ==> b in rows;
      TotalTells(front, r);
    }
  }

  /** Some range over the line still shows a positive total. */
  ghost predicate Shows(rows: seq<Block>, line: int) {
    exists r :: r in rows && r.Covers(line) && Wrap(Total(rows, r)) > 0
  }

  lemma MergedExecuted(blocks: seq<Block>, rows: seq<Block>, line: int)
    requires IsMerge(blocks, rows)
    ensures (exists b :: b in blocks && b.Covers(line) && b.count > 0) <==> Shows(rows, line)
    ensures (exists b :: b in blocks && b.Covers(line)) <==> (exists r :: r in rows && r.Covers(line))
  {
    hide Wrap, Total;
    forall b | b in blocks && b.Covers(line)
      ensures exists r :: r in rows && r.Covers(line)
      ensures b.count > 0 ==> Shows(rows, line)
    {
      var r :| r in rows && r.SameRange(b);
      assert r.Covers(line);
      TotalOfRange(rows, r, b);
    }
    forall r | r in rows && r.Covers(line)
      ensures exists b :: b in blocks && b.Covers(line) && b.count == Wrap(Total(rows, r))
    {
      assert Listed(blocks, r);
      var b :| b in blocks && b.SameRange(r);
      assert b.Covers(line);
      TotalOfRange(rows, r, b);
    }
  }

  /**
   Exactly when merging keeps the verdict on a line: unless some row over the line was counted
   and no range over the line has a total that is positive as a 64-bit integer.
   */
  lemma VerdictExact(blocks: seq<Block>, rows: seq<Block>, line: int)
    requires IsMerge(blocks, rows) && Counted(rows)
    ensures Verdict(blocks, line) == Verdict(rows, line)
       <==> ((exists r :: r in rows && r.Covers(line) && r.count > 0) ==> Shows(rows, line))
  {
    MergedExecuted(blocks, rows, line);
    ShownIsCounted(rows, line);
  }

  lemma ShownIsCounted(rows: seq<Block>, line: int)
    requires Counted(rows)
    ensures Shows(rows, line) ==> exists r :: r in rows && r.Covers(line) && r.count > 0
  {
    hide Total, Wrap;
    if Shows(rows, line) {
      var r :| r in rows && r.Covers(line) && Wrap(Total(rows, r)) > 0;
      TotalTells(rows, r);
      if Total(rows, r) == 0 {
        WrapZero();
      } else {
        var x :| x in rows && x.SameRange(r) && x.count > 0;
        assert x.Covers(line);
      }
    }
  }

  lemma WrapZero()
    ensures Wrap(0) == 0
  {}

  /** As long as no range's total leaves the machine integers, merging keeps every verdict. */
  lemma VerdictKept(blocks: seq<Block>, rows: seq<Block>, line: int)
    requires IsMerge(blocks, rows) && Counted(rows)
    requires forall r :: r in rows ==> Total(rows, r) <= MAX_INT
    ensures Verdict(blocks, line) == Verdict(rows, line)
  {
    hide Total, Wrap;
    VerdictExact(blocks, rows, line);
    if r :| r in rows && r.Covers(line) && r.count > 0 {
      TotalTells(rows, r);
      WrapIn(Total(rows, r));
      assert Shows(rows, line);
    }
  }

  lemma WrapIn(n: int)
    requires 0 <= n <= MAX_INT
    ensures Wrap(n) == n
  {}

  /** Merging one file's rows is merging all rows and keeping that file's blocks. */
  lemma MergeOfFile(blocks: seq<Block>, rows: seq<Block>, file: string)
    requires IsMerge(blocks, rows)
    ensures IsMerge(Of(blocks, file), Of(rows, file))
    ensures forall r :: r in Of(rows, file) ==> Total(Of(rows, file), r) == Total(rows, r)
  {
    hide Total, Wrap, Of, IsMerge, Listed;
    forall r: Block | r.file == file
      ensures Total(Of(rows, file), r) == Total(rows, r)
    {
      TotalOfFile(rows, r);
    }
    forall b | b in Of(blocks, file)
      ensures Listed(Of(rows, file), b) && b.count == Wrap(Total(Of(rows, file), b))
    {
      MergeAt(blocks, rows, b);
    }
    forall r | r in Of(rows, file)
      ensures Listed(Of(blocks, file), r)
    {
      MergeHas(blocks, rows, r);
    }
    MergeIs(Of(blocks, file), Of(rows, file));
  }

  lemma MergeAt(blocks: seq<Block>, rows: seq<Block>, b: Block)
    requires IsMerge(blocks, rows) && b in blocks
    ensures Listed(Of(rows, b.file), b) && b.count == Wrap(Total(rows, b))
  {
    hide Total, Wrap, Of;
    var r :| r in rows && r.SameRange(b);
    assert r in Of(rows, b.file);
  }

  lemma MergeHas(blocks: seq<Block>, rows: seq<Block>, r: Block)
    requires IsMerge(blocks, rows) && r in rows
    ensures Listed(Of(blocks, r.file), r)
  {
    hide Total, Wrap, Of;
    assert Listed(blocks, r);
    var b :| b in blocks && b.SameRange(r);
    assert b in Of(blocks, r.file);
  }

  lemma MergeIs(blocks: seq<Block>, rows: seq<Block>)
    requires forall b :: b in blocks ==> Listed(rows, b) && b.count == Wrap(Total(rows, b))
    requires forall r :: r in rows ==> Listed(blocks, r)
    ensures IsMerge(blocks, rows)
  {}

  lemma {:induction false} TotalOfFile(rows: seq<Block>, r: Block)
    ensures Total(Of(rows, r.file), r) == Total(rows, r)
  {
    hide Total, Of;
    if rows == [] {
      NoRows(r);
    } else {
      var front, last := rows[..|rows| - 1], rows[|rows| - 1];
      assert rows == front + [last];
      TotalOfFile(front, r);
      OfNext(front, last, r.file);
      TotalNext(Of(front, r.file), last, r);
      TotalNext(front, last, r);
    }
  }

  lemma NoRows(r: Block)
    ensures Of([], r.file) == [] && Total([], r) == 0
  {}

  lemma OfNext(rows: seq<Block>, x: Block, file: string)
    ensures Of(rows + [x], file) == if x.file == file then Of(rows, file) + [x] else Of(rows, file)
  {
    assert (rows + [x])[..|rows|] == rows;
    assert Of(rows, file) + [] == Of(rows, file);
  }

  // ----- the order of a profile -----

  predicate Less(a: Block, b: Block) {
    if a.file != b.file then Before(a.file, b.file)
    else if a.start != b.start then a.start < b.start
    else a.end < b.end
  }

  predicate Ascending(blocks: seq<Block>) {
    forall i, j :: 0 <= i < j < |blocks| ==> Less(blocks[i], blocks[j])
  }

  lemma LessIsOrder(a: Block, b: Block)
    ensures Less(a, b) || Less(b, a) || a.SameRange(b)
    ensures Less(a, b) ==> !Less(b, a) && !a.SameRange(b)
  {
    BeforeIsTotal(a.file, b.file);
  }

  lemma LessIsTransitive(a: Block, b: Block, c: Block)
    requires Less(a, b) && Less(b, c)
    ensures Less(a, c)
  {
    BeforeIsTotal(a.file, b.file);
    if a.file != b.file && b.file != c.file {
      BeforeIsTransitive(a.file, b.file, c.file);
      BeforeIsTotal(a.file, c.file);
    }
  }

  lemma Placed(a: seq<Block>, x: Block, b: seq<Block>)
    requires Ascending(a + b) && (b != [] ==> Less(x, b[0])) && (a != [] ==> Less(a[|a| - 1], x))
    ensures Ascending(a + [x] + b)
  {
    hide Less;
    var s, r := a + b, a + [x] + b;
    assert forall k :: 0 <= k < |a| ==> r[k] == s[k] == a[k];
    assert forall k :: |a| < k < |r| ==> r[k] == s[k - 1] == b[k - 1 - |a|];
    forall k | 0 <= k < |a|
      ensures Less(r[k], x)
    {
      if k < |a| - 1 {
        assert Less(s[k], s[|a| - 1]);
        LessIsTransitive(a[k], a[|a| - 1], x);
      }
    }
    forall k | |a| < k < |r|
      ensures Less(x, r[k])
    {
      if k > |a| + 1 {
        assert Less(s[|a|], s[k - 1]);
        LessIsTransitive(x, b[0], r[k]);
      }
    }
  }

  /** Where the sort puts a block: after the last one that is not greater. */
  method Place(r: seq<Block>, x: Block) returns (at: nat)
    ensures at <= |r| && (at < |r| ==> Less(x, r[at])) && (at > 0 ==> !Less(x, r[at - 1]))
  {
    at := |r|;
    while at > 0 && Less(x, r[at - 1])
      invariant 0 <= at <= |r| && (at < |r| ==> Less(x, r[at]))
    {
      at := at - 1;
    }
  }

  /** The sort at the end of both parsers: by file, then by range. Distinct ranges have one order. */
  method Sort(blocks: seq<Block>) returns (r: seq<Block>)
    requires Distinct(blocks)
    ensures multiset(r) == multiset(blocks) && Ascending(r)
  {
    hide Less, Ascending, Distinct;
    r := [];
    Single();
    for i := 0 to |blocks|
      invariant multiset(r) == multiset(blocks[..i]) && Ascending(r)
    {
      var x := blocks[i];
      var at := Place(r, x);
      InsertsNext(blocks, i, r, at);
      r := r[..at] + [x] + r[at..];
    }
    assert blocks[..|blocks|] == blocks;
  }

  lemma Inserts(r: seq<Block>, at: nat, x: Block)
    requires Ascending(r) && at <= |r| && (at < |r| ==> Less(x, r[at])) && (at > 0 ==> Less(r[at - 1], x))
    ensures Ascending(r[..at] + [x] + r[at..])
    ensures multiset(r[..at] + [x] + r[at..]) == multiset(r) + multiset{x}
  {
    hide Less, Ascending;
    assert r == r[..at] + r[at..];
    Placed(r[..at], x, r[at..]);
  }

  lemma InsertsNext(blocks: seq<Block>, i: nat, r: seq<Block>, at: nat)
    requires Distinct(blocks) && i < |blocks| && multiset(r) == multiset(blocks[..i]) && Ascending(r)
    requires at <= |r| && (at < |r| ==> Less(blocks[i], r[at])) && (at > 0 ==> !Less(blocks[i], r[at - 1]))
    ensures Ascending(r[..at] + [blocks[i]] + r[at..])
    ensures multiset(r[..at] + [blocks[i]] + r[at..]) == multiset(blocks[..i + 1])
  {
    hide Less, Ascending, Distinct;
    if at > 0 {
      NewRange(blocks, i, r, r[at - 1]);
      LessIsOrder(blocks[i], r[at - 1]);
    }
    Inserts(r, at, blocks[i]);
    assert blocks[..i + 1] == blocks[..i] + [blocks[i]];
  }

  lemma Single()
    ensures Ascending([])
  {}

  lemma NewRange(blocks: seq<Block>, i: nat, r: seq<Block>, y: Block)
    requires Distinct(blocks) && i < |blocks| && multiset(r) == multiset(blocks[..i]) && y in r
    ensures !blocks[i].SameRange(y)
  {
    assert y in multiset(r);
    var k :| 0 <= k < i && blocks[k] == y;
  }

  lemma SortedIsMerge(r: seq<Block>, blocks: seq<Block>, rows: seq<Block>)
    requires multiset(r) == multiset(blocks) && IsMerge(blocks, rows)
    ensures IsMerge(r, rows)
  {
    hide Wrap, Total;
    forall b
      ensures b in r <==> b in blocks
    {
      assert b in r <==> b in multiset(r);
      assert b in blocks <==> b in multiset(blocks);
    }
    forall x | x in rows
      ensures Listed(r, x)
    {
      assert Listed(blocks, x);
      var b :| b in blocks && b.SameRange(x);
      assert b in r;
    }
  }
}

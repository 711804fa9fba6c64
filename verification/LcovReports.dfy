/** LCOV reports as text. */
module LcovReports {
  import opened Json
  import opened Text
  import opened Blocks
  import opened Profiles
  import opened Coverage
  import Wire

  // ----- what a report says -----

  /** A line with its count, with or without a checksum, or a field that says nothing of lines. */
  datatype Item = Hit(line: nat, count: nat, checksum: Option<string>) | Note(field: string, text: string)

  /** A record: the test it is of, the file, and its items. */
  datatype Section = Section(test: string, file: string, items: seq<Item>)

  /** Text that ends its line. */
  predicate OneLine(t: string) {
    '\n' !in t && (t == [] || t[|t| - 1] != '\r')
  }

  predicate Writable(i: Item) {
    match i
    case Hit(line, _, checksum) => 1 <= line <= MAX_INT && (checksum.Some? ==> OneLine(checksum.value) && ',' !in checksum.value)
    case Note(field, text) => field in FIELDS && field != "SF" && field != "DA" && OneLine(text)
  }

  predicate AllWritable(sections: seq<Section>) {
    forall s :: s in sections ==> OneLine(s.test) && OneLine(s.file) && s.file != "" && forall i :: i in s.items ==> Writable(i)
  }

  function HitText(line: nat, count: nat, checksum: Option<string>): string {
    Itoa(line) + ("," + (Itoa(count) + match checksum case None => "" case Some(c) => "," + c))
  }

  function ItemText(i: Item): string {
    match i
    case Hit(line, count, checksum) => "DA" + (":" + HitText(line, count, checksum))
    case Note(field, text) => field + (":" + text)
  }

  function ItemLines(items: seq<Item>): seq<string> {
    if items == [] then [] else ItemLines(items[..|items| - 1]) + [ItemText(items[|items| - 1])]
  }

  function SectionLines(s: Section): seq<string> {
    ["TN" + (":" + s.test), "SF" + (":" + s.file)] + ItemLines(s.items) + ["end_of_record"]
  }

  function AllLines(sections: seq<Section>): seq<string> {
    if sections == [] then [] else AllLines(sections[..|sections| - 1]) + SectionLines(sections[|sections| - 1])
  }

  /** The report as the Istanbul reporters write it. */
  function Written(sections: seq<Section>): string {
    Wire.Payload(AllLines(sections))
  }

  /** A count past 2^30 is read as 2^30: only whether it is zero matters. */
  function Read(count: nat): nat {
    if count > SATURATED then SATURATED else count
  }

  function ItemRows(file: string, items: seq<Item>): seq<Block> {
    if items == [] then []
    else
      var last := items[|items| - 1];
      ItemRows(file, items[..|items| - 1]) + if last.Hit? then [Block(file, last.line, last.line, 1, Read(last.count))] else []
  }

  function AllRows(sections: seq<Section>): seq<Block> {
    if sections == [] then []
    else AllRows(sections[..|sections| - 1]) + ItemRows(sections[|sections| - 1].file, sections[|sections| - 1].items)
  }

  // ----- numbers -----

  lemma {:induction false} ScanGrows(acc: nat, s: string)
    ensures ScanDigits(acc, s).value >= acc
    decreases |s|
  {
    if s != [] && IsDigit(s[0]) {
      ScanGrows(10 * acc + (s[0] - '0') as int, s[1..]);
    }
  }

  lemma {:induction false} SaturatingValue(acc: nat, s: string)
    requires forall k :: 0 <= k < |s| ==> IsDigit(s[k])
    ensures Saturating(acc, s) == Some(Read(ScanDigits(acc, s).value))
    decreases |s|
  {
    if s != [] {
      var next := 10 * acc + (s[0] - '0') as int;
      if next >= WORD {
        ScanGrows(next, s[1..]);
      } else {
        SaturatingValue(next, s[1..]);
      }
    }
  }

  lemma CountIsRead(count: nat)
    ensures Itoa(count) != [] && Saturating(0, Itoa(count)) == Some(Read(count))
  {
    SaturatingValue(0, Itoa(count));
    ScanDigitsOfDigits(count, "");
    assert Digits(count) + "" == Digits(count);
  }

  // ----- one line -----

  lemma CommasFirst(a: string, rest: string)
    requires ',' !in a
    ensures Commas(a + ("," + rest)) == [a] + Commas(rest) && Commas(a) == [a]
  {
    FirstByteIs(a, ',', rest);
    assert a + [','] + rest == a + ("," + rest);
    var s := a + ("," + rest);
    assert s[..|a|] == a && s[|a| + 1..] == rest;
    NoByte(a, ',');
  }

  lemma {:induction false} NoByte(s: string, c: char)
    requires c !in s
    ensures FirstByte(s, c) == |s|
    decreases |s|
  {
    if s != [] {
      NoByte(s[1..], c);
    }
  }

  lemma NumberPlain(n: nat)
    ensures ',' !in Itoa(n) && '\n' !in Itoa(n) && Itoa(n) != [] && Itoa(n)[|Itoa(n)| - 1] != '\r'
  {
    var d := Digits(n);
    assert forall k :: 0 <= k < |d| ==> IsDigit(d[k]);
  }

  lemma HitIsRead(file: string, line: nat, count: nat, checksum: Option<string>)
    requires Writable(Hit(line, count, checksum))
    ensures Entry(file, HitText(line, count, checksum)) == Some(Block(file, line, line, 1, Read(count)))
  {
    hide Itoa, Saturating, Atoi, Commas;
    NumberPlain(line);
    NumberPlain(count);
    CountIsRead(count);
    AtoiOfItoa(line);
    match checksum
    case None =>
      assert Itoa(count) + "" == Itoa(count);
      CommasFirst(Itoa(line), Itoa(count));
      CommasFirst(Itoa(count), "");
    case Some(c) =>
      CommasFirst(Itoa(line), Itoa(count) + ("," + c));
      CommasFirst(Itoa(count), c);
      CommasFirst(c, "");
  }

  lemma HitIsOneLine(line: nat, count: nat, checksum: Option<string>)
    requires Writable(Hit(line, count, checksum))
    ensures OneLine(HitText(line, count, checksum)) && HitText(line, count, checksum) != []
  {
    hide Itoa;
    NumberPlain(line);
    NumberPlain(count);
    var t := HitText(line, count, checksum);
    var tail := Itoa(count) + match checksum case None => "" case Some(c) => "," + c;
    assert tail[|tail| - 1] == if checksum.Some? && checksum.value != [] then checksum.value[|checksum.value| - 1]
                               else if checksum.Some? then ',' else Itoa(count)[|Itoa(count)| - 1];
    assert t[|t| - 1] == tail[|tail| - 1];
    assert '\n' !in tail;
  }

  predicate FieldName(field: string) {
    field != [] && forall k :: 0 <= k < |field| ==> 'A' <= field[k] <= 'Z'
  }

  lemma FieldNames(field: string)
    requires field in FIELDS
    ensures FieldName(field)
  {}

  /** A field with its text is one line that is not blank, and is split at its first colon. */
  lemma FieldIsLine(field: string, text: string)
    requires FieldName(field) && OneLine(text)
    ensures var t := field + (":" + text);
            && '\n' !in t && TrimReturns(t) == t && !Blank(t) && t != "end_of_record"
            && Profiles.Cut(t, ':') == Some((field, text))
  {
    var t := field + (":" + text);
    FirstByteIs(field, ':', text);
    assert field + [':'] + text == t;
    SplitAt(field, ':', text);
    assert t[|t| - 1] == if text == [] then ':' else text[|text| - 1];
    assert t[0] == field[0];
    if Blank(t) {
      BlankBytes(t, 0);
    }
    assert t[|field|] == ':' && "end_of_record"[0] == 'e';
  }

  lemma {:induction false} MergedSize(rows: seq<Block>)
    ensures |Merged(rows)| <= |rows|
  {
    if rows != [] {
      MergedSize(rows[..|rows| - 1]);
    }
  }

  /** What an item adds to an open record. */
  lemma ItemIsRead(s: LcovState, i: Item, row: nat)
    requires s.open && Writable(i) && |s.rows| < MAX_BLOCKS
    ensures LcovLine(s, ItemText(i), row) == Ok(s.(rows := s.rows + ItemRows(s.file, [i])))
    ensures '\n' !in ItemText(i)
  {
    hide Blank, TrimReturns, Entry, Profiles.Cut, OneLine, HitText, Merged, Find;
    OneItemRow(s.file, i);
    match i
    case Hit(line, count, checksum) =>
      HitIsOneLine(line, count, checksum);
      FieldNames("DA");
      FieldIsLine("DA", HitText(line, count, checksum));
      HitIsRead(s.file, line, count, checksum);
      MergedSize(s.rows);
      FoundOrNot(Merged(s.rows), Block(s.file, line, line, 1, Read(count)));
    case Note(field, text) =>
      FieldNames(field);
      FieldIsLine(field, text);
      assert s.rows + [] == s.rows;
  }

  lemma FoundOrNot(blocks: seq<Block>, b: Block)
    ensures Find(blocks, b) <= |blocks|
  {}

  lemma OneItemRow(file: string, i: Item)
    ensures ItemRows(file, [i]) == if i.Hit? then [Block(file, i.line, i.line, 1, Read(i.count))] else []
  {
    assert [i][..0] == [];
  }

  lemma FoldNext(lines: seq<string>, line: string)
    ensures LcovFold(lines + [line]) == match LcovFold(lines)
                                        case Failed(why) => Failed(why)
                                        case Ok(s) => LcovLine(s, line, |lines| + 1)
  {
    assert (lines + [line])[..|lines|] == lines;
  }

  // ----- records -----

  lemma {:induction false} ItemsAreRead(front: seq<string>, s: LcovState, items: seq<Item>)
    requires LcovFold(front) == Ok(s) && s.open && (forall i :: i in items ==> Writable(i)) && |s.rows| + |items| <= MAX_BLOCKS
    ensures LcovFold(front + ItemLines(items)) == Ok(s.(rows := s.rows + ItemRows(s.file, items)))
    ensures |ItemRows(s.file, items)| <= |items|
    decreases |items|
  {
    hide LcovFold, LcovLine, Writable, ItemText;
    if items == [] {
      assert front + ItemLines(items) == front && s.rows + ItemRows(s.file, items) == s.rows;
    } else {
      var before, last := items[..|items| - 1], items[|items| - 1];
      ItemsAreRead(front, s, before);
      var t := s.(rows := s.rows + ItemRows(s.file, before));
      FoldNext(front + ItemLines(before), ItemText(last));
      assert front + ItemLines(items) == front + ItemLines(before) + [ItemText(last)];
      ItemIsRead(t, last, |front + ItemLines(before)| + 1);
      OneItemRow(s.file, last);
      assert t.rows + ItemRows(s.file, [last]) == s.rows + ItemRows(s.file, items);
    }
  }

  function Items(sections: seq<Section>): nat {
    if sections == [] then 0 else Items(sections[..|sections| - 1]) + |sections[|sections| - 1].items|
  }

  lemma HeadIsRead(s: LcovState, test: string, file: string, row: nat)
    requires !s.open && OneLine(test) && OneLine(file) && file != ""
    ensures LcovLine(s, "TN" + (":" + test), row) == Ok(s)
    ensures LcovLine(s, "SF" + (":" + file), row) == Ok(s.(file := file, open := true, records := s.records + 1))
    ensures '\n' !in "TN" + (":" + test) && '\n' !in "SF" + (":" + file)
  {
    hide Blank, TrimReturns, Profiles.Cut, OneLine;
    FieldNames("TN");
    FieldNames("SF");
    FieldIsLine("TN", test);
    FieldIsLine("SF", file);
  }

  lemma EndIsRead(s: LcovState, row: nat)
    requires s.open
    ensures LcovLine(s, "end_of_record", row) == Ok(s.(file := "", open := false))
  {
    var t := "end_of_record";
    assert t[0] == 'e' && t[|t| - 1] == 'd';
    if Blank(t) {
      BlankBytes(t, 0);
    }
  }

  lemma SectionIsRead(front: seq<string>, s: LcovState, x: Section)
    requires LcovFold(front) == Ok(s) && !s.open && s.file == "" && AllWritable([x]) && |s.rows| + |x.items| <= MAX_BLOCKS
    ensures LcovFold(front + SectionLines(x)) == Ok(LcovState("", false, s.records + 1, s.rows + ItemRows(x.file, x.items)))
  {
    hide LcovFold, LcovLine, Writable, OneLine, ItemLines;
    assert x in [x];
    var tn, sf := "TN" + (":" + x.test), "SF" + (":" + x.file);
    var t := s.(file := x.file, open := true, records := s.records + 1);
    HeadIsRead(s, x.test, x.file, |front| + 1);
    FoldNext(front, tn);
    HeadIsRead(s, x.test, x.file, |front + [tn]| + 1);
    FoldNext(front + [tn], sf);
    ItemsAreRead(front + [tn] + [sf], t, x.items);
    var body := front + [tn] + [sf] + ItemLines(x.items);
    EndIsRead(t.(rows := t.rows + ItemRows(x.file, x.items)), |body| + 1);
    FoldNext(body, "end_of_record");
    assert front + SectionLines(x) == body + ["end_of_record"];
  }

  lemma {:induction false} SectionsAreRead(sections: seq<Section>)
    requires AllWritable(sections) && Items(sections) <= MAX_BLOCKS
    ensures LcovFold(AllLines(sections)) == Ok(LcovState("", false, |sections|, AllRows(sections)))
    ensures |AllRows(sections)| <= Items(sections)
    decreases |sections|
  {
    hide LcovFold, LcovLine, SectionLines, Writable;
    if sections == [] {
      NothingIsRead();
    } else {
      var before, last := sections[..|sections| - 1], sections[|sections| - 1];
      SectionsAreRead(before);
      SectionIsRead(AllLines(before), LcovState("", false, |before|, AllRows(before)), last);
      RowsFewer(last.file, last.items);
    }
  }

  lemma {:induction false} RowsFewer(file: string, items: seq<Item>)
    ensures |ItemRows(file, items)| <= |items|
  {
    if items != [] {
      RowsFewer(file, items[..|items| - 1]);
    }
  }

  lemma NothingIsRead()
    ensures LcovFold([]) == Ok(LcovState("", false, 0, []))
  {}

  // ----- the whole text -----

  predicate AllOneLine(lines: seq<string>) {
    forall k :: 0 <= k < |lines| ==> '\n' !in lines[k]
  }

  lemma {:induction false} ItemLinesPlain(items: seq<Item>)
    requires forall i :: i in items ==> Writable(i)
    ensures AllOneLine(ItemLines(items))
    decreases |items|
  {
    hide Writable, ItemText;
    if items != [] {
      ItemLinesPlain(items[..|items| - 1]);
      ItemIsRead(LcovState("", true, 0, []), items[|items| - 1], 0);
    }
  }

  lemma {:induction false} LinesPlain(sections: seq<Section>)
    requires AllWritable(sections)
    ensures AllOneLine(AllLines(sections))
    decreases |sections|
  {
    hide Writable, ItemLines, OneLine;
    if sections != [] {
      var last := sections[|sections| - 1];
      LinesPlain(sections[..|sections| - 1]);
      ItemLinesPlain(last.items);
      HeadIsRead(LcovState("", false, 0, []), last.test, last.file, 0);
    }
  }

  lemma EmptyLineIsRead(s: LcovState, row: nat)
    ensures LcovLine(s, "", row) == Ok(s)
  {}

  /**
   The reader finds in a written report exactly the rows that were written, in order: every line with its
   count, as far as 2^30.
   */
  lemma WrittenIsRead(sections: seq<Section>)
    requires sections != [] && AllWritable(sections) && Items(sections) <= MAX_BLOCKS && |Written(sections)| <= MAX_PROFILE_BYTES
    ensures LcovRows(Written(sections)) == Ok(LcovState("", false, |sections|, AllRows(sections)))
  {
    hide LcovFold, LcovLine, AllLines, Writable, AllRows;
    LinesPlain(sections);
    Wire.SplitOfPayload(AllLines(sections));
    SectionsAreRead(sections);
    FoldNext(AllLines(sections), "");
    EmptyLineIsRead(LcovState("", false, |sections|, AllRows(sections)), |AllLines(sections)| + 1);
  }

  // ----- what a line is called -----

  /** Some record of the file has the line; and one that counted it, when `ran`. */
  ghost predicate Reports(sections: seq<Section>, file: string, line: int, ran: bool) {
    exists s, i :: s in sections && s.file == file && i in s.items && i.Hit? && i.line == line && (ran ==> i.count > 0)
  }

  lemma {:induction false} ItemRowsExact(file: string, items: seq<Item>, r: Block)
    ensures r in ItemRows(file, items) <==>
            exists i :: i in items && i.Hit? && r == Block(file, i.line, i.line, 1, Read(i.count))
    decreases |items|
  {
    if items != [] {
      var before, last := items[..|items| - 1], items[|items| - 1];
      assert items == before + [last];
      ItemRowsExact(file, before, r);
    }
  }

  lemma {:induction false} AllRowsExact(sections: seq<Section>, r: Block)
    ensures r in AllRows(sections) <==>
            exists s, i :: s in sections && i in s.items && i.Hit? && r == Block(s.file, i.line, i.line, 1, Read(i.count))
    decreases |sections|
  {
    hide ItemRows;
    if sections != [] {
      var before, last := sections[..|sections| - 1], sections[|sections| - 1];
      assert sections == before + [last];
      AllRowsExact(before, r);
      ItemRowsExact(last.file, last.items, r);
    }
  }

  lemma RowsVerdict(sections: seq<Section>, file: string, line: int)
    ensures Verdict(Of(AllRows(sections), file), line) ==
            if Reports(sections, file, line, true) then Executed else if Reports(sections, file, line, false) then NotRun else NoBlock
  {
    hide AllRows;
    var rows := Of(AllRows(sections), file);
    forall r
      ensures r in rows <==>
              exists s, i :: s in sections && s.file == file && i in s.items && i.Hit? && r == Block(file, i.line, i.line, 1, Read(i.count))
    {
      AllRowsExact(sections, r);
    }
    forall s, i | s in sections && s.file == file && i in s.items && i.Hit? && i.line == line
      ensures Block(file, i.line, i.line, 1, Read(i.count)) in rows
    {
      AllRowsExact(sections, Block(file, i.line, i.line, 1, Read(i.count)));
    }
  }

  /**
   What a written report comes to: a line of a file is executed exactly when some written count over it is
   positive, and not run exactly when it was written with zeros only.
   */
  lemma LineIsCalled(sections: seq<Section>, p: Profile, file: string, line: int)
    requires sections != [] && AllWritable(sections) && Items(sections) <= MAX_BLOCKS && |Written(sections)| <= MAX_PROFILE_BYTES
    requires Holds(p, AllRows(sections))
    ensures Verdict(Of(p.blocks, file), line) ==
            if Reports(sections, file, line, true) then Executed else if Reports(sections, file, line, false) then NotRun else NoBlock
  {
    hide LcovRows, Written, AllRows, Verdict, Holds, Reports, AllWritable;
    WrittenIsRead(sections);
    LcovVerdictKept(Written(sections), p, file, line);
    RowsVerdict(sections, file, line);
  }
}

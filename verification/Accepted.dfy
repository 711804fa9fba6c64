/** Which coverage reports are read. */
module Accepted {
  import opened Json
  import opened Text
  import opened Blocks
  import opened Profiles
  import Wire

  // ----- LCOV reports -----

  function LineText(lines: seq<string>, i: nat): string
    requires i < |lines|
  {
    TrimReturns(lines[i])
  }

  predicate IsEnd(lines: seq<string>, i: nat)
    requires i < |lines|
  {
    LineText(lines, i) == "end_of_record"
  }

  /** A line that names a file. */
  predicate Names(lines: seq<string>, i: nat)
    requires i < |lines|
  {
    "SF:" <= LineText(lines, i)
  }

  /** A record is open before line i: a file was named, and no record ended since. */
  predicate Opened(lines: seq<string>, i: nat)
    requires i <= |lines|
  {
    exists o :: 0 <= o < i && Names(lines, o) && forall c :: o < c < i ==> !IsEnd(lines, c)
  }

  /** What a field demands of where it stands and of its value. */
  predicate FieldFits(lines: seq<string>, i: nat, field: string, value: string)
    requires i < |lines|
  {
    if field == "SF" then !Opened(lines, i) && value != ""
    else if field == "DA" then Opened(lines, i) && Entry("", value).Some?
    else field == "TN" || field == "VER" || (field in FIELDS && Opened(lines, i))
  }

  /** Line i may stand where it stands. */
  predicate Fine(lines: seq<string>, i: nat)
    requires i < |lines|
  {
    var text := LineText(lines, i);
    Blank(text)
    || (if text == "end_of_record" then Opened(lines, i)
        else exists field :: field in FIELDS && field + ":" <= text && FieldFits(lines, i, field, text[|field| + 1..]))
  }

  /** Line i brings a range of its own, after as many as a report may have. */
  ghost predicate Overflows(lines: seq<string>, i: nat)
    requires i < |lines|
  {
    && LcovFold(lines[..i]).Ok? && "DA:" <= LineText(lines, i) && Fine(lines, i)
    && |Merged(LcovFold(lines[..i]).value.rows)| >= 200000
  }

  lemma FieldsHaveNoColon(field: string)
    requires field in FIELDS
    ensures ':' !in field && field != ""
  {}

  /** The field of a line is what stands before its first colon. */
  lemma FieldIs(text: string, field: string)
    requires field in FIELDS && field + ":" <= text
    ensures Profiles.Cut(text, ':') == Some((field, text[|field| + 1..]))
  {
    FieldsHaveNoColon(field);
    assert text == field + [':'] + text[|field| + 1..];
    FirstByteIs(field, ':', text[|field| + 1..]);
    assert text[..|field|] == field;
  }

  lemma CutIs(text: string, field: string, value: string)
    requires Profiles.Cut(text, ':') == Some((field, value))
    ensures field + ":" <= text && value == text[|field| + 1..]
  {
    assert field + ":" == text[..|field| + 1];
  }

  lemma EntryAnywhere(file: string, value: string)
    ensures Entry(file, value).Some? <==> Entry("", value).Some?
  {
    hide Commas, Saturating;
  }

  /** A line that is not blank and ends no record is fine exactly when its field fits. */
  lemma FineField(lines: seq<string>, i: nat)
    requires i < |lines| && !Blank(LineText(lines, i)) && !IsEnd(lines, i)
    ensures match Profiles.Cut(LineText(lines, i), ':')
            case None => !Fine(lines, i) && !Names(lines, i)
            case Some((field, value)) =>
              && (Fine(lines, i) <==> field in FIELDS && FieldFits(lines, i, field, value))
              && (Names(lines, i) <==> field == "SF") && ("DA:" <= LineText(lines, i) <==> field == "DA")
  {
    hide Blank, Entry, Opened, FieldFits, Profiles.Cut;
    var text := LineText(lines, i);
    forall field | field in FIELDS && field + ":" <= text
      ensures Profiles.Cut(text, ':') == Some((field, text[|field| + 1..]))
    {
      FieldIs(text, field);
    }
    assert "SF" + ":" == "SF:" && "DA" + ":" == "DA:";
    assert "SF" in FIELDS && "DA" in FIELDS;
    match Profiles.Cut(text, ':')
    case None =>
    case Some((field, value)) => CutIs(text, field, value);
  }

  /** The state of the reader stands for what the lines so far say. */
  ghost predicate Holds(s: LcovState, lines: seq<string>, n: nat)
    requires n <= |lines|
  {
    && (s.open <==> Opened(lines, n)) && (s.records > 0 <==> exists o :: 0 <= o < n && Names(lines, o))
    && |Merged(s.rows)| <= 200000 && forall i :: 0 <= i < n ==> Fine(lines, i)
  }

  lemma OpenedNext(lines: seq<string>, n: nat, m: nat)
    requires n < |lines| && m == n + 1
    ensures Opened(lines, m) <==> Names(lines, n) || (Opened(lines, n) && !IsEnd(lines, n))
  {
    if Opened(lines, m) && !Names(lines, n) {
      var o :| 0 <= o < m && Names(lines, o) && forall c :: o < c < m ==> !IsEnd(lines, c);
    }
  }

  lemma RowFits(rows: seq<Block>, b: Block)
    requires |Merged(rows)| <= 200000
    ensures match WithRow(rows, b)
            case Ok(more) => more == rows + [b] && |Merged(more)| <= 200000
            case Failed(why) => why == BlockLimit && |Merged(rows)| >= 200000
  {
    hide Find;
    assert (rows + [b])[..|rows|] == rows;
  }

  /** One line moves the reader as it moves what the lines say. */
  lemma LineHolds(s: LcovState, lines: seq<string>, n: nat)
    requires n < |lines| && Holds(s, lines, n)
    ensures match LcovLine(s, lines[n], n + 1)
            case Ok(t) => Holds(t, lines, n + 1)
            case Failed(why) =>
              if Fine(lines, n) then why == BlockLimit && "DA:" <= LineText(lines, n) && |Merged(s.rows)| >= 200000 else why == Malformed(n + 1)
  {
    hide Blank, Entry, Profiles.Cut, WithRow, Opened, Merged, Find, TrimReturns;
    OpenedNext(lines, n, n + 1);
    if !Blank(LineText(lines, n)) && !IsEnd(lines, n) {
      FieldHolds(s, lines, n);
    } else {
      PlainHolds(s, lines, n);
    }
  }

  lemma PlainHolds(s: LcovState, lines: seq<string>, n: nat)
    requires n < |lines| && Holds(s, lines, n) && (Blank(LineText(lines, n)) || IsEnd(lines, n))
    requires Opened(lines, n + 1) <==> Names(lines, n) || (Opened(lines, n) && !IsEnd(lines, n))
    ensures match LcovLine(s, lines[n], n + 1)
            case Ok(t) => Holds(t, lines, n + 1)
            case Failed(why) => !Fine(lines, n) && why == Malformed(n + 1)
  {
    hide Opened, Merged, Fine, LcovLine, Names, IsEnd, Blank, TrimReturns;
    NamesNothing(lines, n);
    NamedNext(lines, n);
    PlainLine(s, lines, n);
    PlainFine(lines, n);
  }

  lemma PlainLine(s: LcovState, lines: seq<string>, n: nat)
    requires n < |lines| && (Blank(LineText(lines, n)) || IsEnd(lines, n))
    ensures LcovLine(s, lines[n], n + 1)
         == if Blank(LineText(lines, n)) then Ok(s)
            else if s.open then Ok(s.(file := "", open := false)) else Failed(Malformed(n + 1))
  {
    hide Blank, TrimReturns;
  }

  lemma PlainFine(lines: seq<string>, n: nat)
    requires n < |lines| && (Blank(LineText(lines, n)) || IsEnd(lines, n))
    ensures Fine(lines, n) <==> Blank(LineText(lines, n)) || Opened(lines, n)
  {
    hide Blank, TrimReturns, Opened, FieldFits;
  }

  lemma NamesNothing(lines: seq<string>, n: nat)
    requires n < |lines| && (Blank(LineText(lines, n)) || IsEnd(lines, n))
    ensures !Names(lines, n) && !(Blank(LineText(lines, n)) && IsEnd(lines, n))
  {
    var text := LineText(lines, n);
    if Blank(text) && text != "" {
      BlankBytes(text, 0);
    }
  }

  lemma NamedNext(lines: seq<string>, n: nat)
    requires n < |lines|
    ensures var m := n + 1; (exists o :: 0 <= o < m && Names(lines, o)) <==> Names(lines, n) || exists o :: 0 <= o < n && Names(lines, o)
  {
    hide LineText;
    if exists o :: 0 <= o < n && Names(lines, o) {
      var o :| 0 <= o < n && Names(lines, o);
      assert o < n + 1;
    }
  }

  lemma FieldHolds(s: LcovState, lines: seq<string>, n: nat)
    requires n < |lines| && Holds(s, lines, n) && !Blank(LineText(lines, n)) && !IsEnd(lines, n)
    requires Opened(lines, n + 1) <==> Names(lines, n) || (Opened(lines, n) && !IsEnd(lines, n))
    ensures match LcovLine(s, lines[n], n + 1)
            case Ok(t) => Holds(t, lines, n + 1)
            case Failed(why) =>
              if Fine(lines, n) then why == BlockLimit && "DA:" <= LineText(lines, n) && |Merged(s.rows)| >= 200000 else why == Malformed(n + 1)
  {
    hide Blank, Entry, Profiles.Cut, WithRow, Opened, Merged, Find, TrimReturns, Fine;
    FineField(lines, n);
    NamedNext(lines, n);
    match Profiles.Cut(LineText(lines, n), ':')
    case None =>
    case Some((field, value)) =>
      EntryAnywhere(s.file, value);
      if Entry(s.file, value).Some? {
        RowFits(s.rows, Entry(s.file, value).value);
      }
  }

  lemma NothingHolds(lines: seq<string>)
    ensures Holds(LcovState("", false, 0, []), lines, 0)
  {}

  /** After n lines: the reader's state, or why it stopped and at which line. */
  lemma {:induction false} FoldTells(lines: seq<string>, n: nat) returns (i: nat)
    requires n <= |lines|
    ensures match LcovFold(lines[..n])
            case Ok(s) => Holds(s, lines, n)
            case Failed(why) => i < n && First(why, lines, i)
  {
    hide LcovLine, Holds, First;
    i := 0;
    if n == 0 {
      NothingHolds(lines);
    } else {
      i := FoldTells(lines, n - 1);
      assert lines[..n][..n - 1] == lines[..n - 1];
      if LcovFold(lines[..n - 1]).Ok? {
        i := n - 1;
        StepTells(LcovFold(lines[..n - 1]).value, lines, n - 1);
      }
    }
  }

  /** The reader stops at line i: it may not stand there, or it brings a range too many. */
  ghost predicate StopsAt(why: Failure, lines: seq<string>, i: nat)
    requires i < |lines|
  {
    if Fine(lines, i) then why == BlockLimit && Overflows(lines, i) else why == Malformed(i + 1)
  }

  /** It stops there first. */
  ghost predicate First(why: Failure, lines: seq<string>, i: nat)
    requires i < |lines|
  {
    StopsAt(why, lines, i) && forall j :: 0 <= j < i ==> Fine(lines, j)
  }

  lemma StepTells(s: LcovState, lines: seq<string>, n: nat)
    requires n < |lines| && Holds(s, lines, n) && LcovFold(lines[..n]) == Ok(s)
    ensures match LcovLine(s, lines[n], n + 1)
            case Ok(t) => Holds(t, lines, n + 1)
            case Failed(why) => First(why, lines, n)
  {
    hide LcovLine, Fine, LcovFold;
    LineHolds(s, lines, n);
  }

  predicate Named(lines: seq<string>) {
    exists o :: 0 <= o < |lines| && Names(lines, o)
  }

  /** A reason is true of the lines. */
  ghost predicate IsWhy(why: Failure, text: string, lines: seq<string>) {
    match why
    case BlockLimit => |text| > 0x80_0000 || exists i :: 0 <= i < |lines| && Overflows(lines, i)
    case Malformed(row) => 1 <= row <= |lines| && !Fine(lines, row - 1) && forall j :: 0 <= j < row - 1 ==> Fine(lines, j)
    case Truncated => (forall i :: 0 <= i < |lines| ==> Fine(lines, i)) && Opened(lines, |lines|)
    case Format => (forall i :: 0 <= i < |lines| ==> Fine(lines, i)) && !Opened(lines, |lines|) && !Named(lines)
  }

  /**
   A report is read exactly when it is small enough, every line may stand where it stands, no record is
   left open, some file is named and its ranges are within the limit; and each refusal gives a
   reason that is true of it, the first line that may not stand where it does among them.
   */
  lemma {:induction false} LcovAcceptedExact(text: string)
    ensures var lines := Wire.Split(text);
            match LcovRows(text)
            case Ok(s) =>
              && |text| <= 0x80_0000 && (forall i :: 0 <= i < |lines| ==> Fine(lines, i)) && !Opened(lines, |lines|) && Named(lines)
              && |Merged(s.rows)| <= 200000
            case Failed(why) => IsWhy(why, text, lines)
  {
    hide LcovFold, Fine, Overflows, Opened;
    var lines := Wire.Split(text);
    assert lines[..|lines|] == lines;
    var i := FoldTells(lines, |lines|);
  }

  // ----- Go profiles -----

  predicate IsMode(text: string) {
    text == "mode: set" || text == "mode: count" || text == "mode: atomic"
  }

  /** Everything before line i is blank. */
  predicate Leads(lines: seq<string>, i: nat)
    requires i <= |lines|
  {
    forall j :: 0 <= j < i ==> Blank(LineText(lines, j))
  }

  /** Line i of a Go profile may stand where it stands: the mode comes first, and rows follow. */
  predicate GoFine(lines: seq<string>, i: nat)
    requires i < |lines|
  {
    Blank(LineText(lines, i)) || if Leads(lines, i) then IsMode(LineText(lines, i)) else ParseBlock(LineText(lines, i)).Some?
  }

  ghost predicate GoOverflows(lines: seq<string>, i: nat)
    requires i < |lines|
  {
    GoFold(lines[..i]).Ok? && GoFine(lines, i) && !Leads(lines, i) && |Merged(GoFold(lines[..i]).value.rows)| >= 200000
  }

  ghost predicate GoHolds(s: GoState, lines: seq<string>, n: nat)
    requires n <= |lines|
  {
    (s.mode == "" <==> Leads(lines, n)) && |Merged(s.rows)| <= 200000 && forall i :: 0 <= i < n ==> GoFine(lines, i)
  }

  ghost predicate GoStopsAt(why: Failure, lines: seq<string>, i: nat)
    requires i < |lines|
  {
    if GoFine(lines, i) then why == BlockLimit && GoOverflows(lines, i)
    else if Leads(lines, i) then why == Format
    else why == Malformed(i + 1)
  }

  ghost predicate GoFirst(why: Failure, lines: seq<string>, i: nat)
    requires i < |lines|
  {
    GoStopsAt(why, lines, i) && forall j :: 0 <= j < i ==> GoFine(lines, j)
  }

  lemma LeadsNext(lines: seq<string>, n: nat, m: nat)
    requires n < |lines| && m == n + 1
    ensures Leads(lines, m) <==> Leads(lines, n) && Blank(LineText(lines, n))
  {
    hide Blank;
  }

  lemma ModeIs(text: string)
    ensures text in {"mode: set", "mode: count", "mode: atomic"} <==> IsMode(text)
    ensures IsMode(text) ==> |text| > 6 && text[6..] != ""
  {}

  lemma {:induction false} GoStepTells(s: GoState, lines: seq<string>, n: nat)
    requires n < |lines| && GoHolds(s, lines, n) && GoFold(lines[..n]) == Ok(s)
    ensures match GoLine(s, lines[n], n + 1)
            case Ok(t) => GoHolds(t, lines, n + 1)
            case Failed(why) => GoFirst(why, lines, n)
  {
    hide GoFold, Blank, ParseBlock, WithRow, Merged, Leads, IsMode, TrimReturns;
    LeadsNext(lines, n, n + 1);
    ModeIs(LineText(lines, n));
    assert |"mode: "| == 6;
    if ParseBlock(LineText(lines, n)).Some? {
      RowFits(s.rows, ParseBlock(LineText(lines, n)).value);
    }
  }

  lemma NothingGo(lines: seq<string>)
    ensures GoHolds(GoState("", []), lines, 0)
  {}

  lemma {:induction false} GoFoldTells(lines: seq<string>, n: nat) returns (i: nat)
    requires n <= |lines|
    ensures match GoFold(lines[..n])
            case Ok(s) => GoHolds(s, lines, n)
            case Failed(why) => i < n && GoFirst(why, lines, i)
  {
    hide GoLine, GoHolds, GoFine, GoFirst;
    i := 0;
    if n == 0 {
      NothingGo(lines);
    } else {
      i := GoFoldTells(lines, n - 1);
      assert lines[..n][..n - 1] == lines[..n - 1];
      if GoFold(lines[..n - 1]).Ok? {
        i := n - 1;
        GoStepTells(GoFold(lines[..n - 1]).value, lines, n - 1);
      }
    }
  }

  ghost predicate IsGoWhy(why: Failure, text: string, lines: seq<string>) {
    match why
    case BlockLimit => |text| > 0x80_0000 || exists i :: 0 <= i < |lines| && GoOverflows(lines, i)
    case Malformed(row) => 1 <= row <= |lines| && !GoFine(lines, row - 1) && !Leads(lines, row - 1) && forall j :: 0 <= j < row - 1 ==> GoFine(lines, j)
    case Format => Leads(lines, |lines|) || exists i :: 0 <= i < |lines| && Leads(lines, i) && !GoFine(lines, i)
    case Truncated => false
  }

  /** The same for a Go profile: its first line says the mode, every other is a row, and none is missing. */
  lemma {:induction false} GoAcceptedExact(text: string)
    ensures var lines := Wire.Split(text);
            match GoRows(text)
            case Ok(s) =>
              && |text| <= 0x80_0000 && (forall i :: 0 <= i < |lines| ==> GoFine(lines, i)) && !Leads(lines, |lines|)
              && |Merged(s.rows)| <= 200000
            case Failed(why) => IsGoWhy(why, text, lines)
  {
    hide GoFold, GoFine, GoOverflows, Leads;
    var lines := Wire.Split(text);
    assert lines[..|lines|] == lines;
    var i := GoFoldTells(lines, |lines|);
  }
}

/** What an intent document says. */
module Intent {
  import opened Json
  import opened Text
  import opened Markdown
  import opened Criteria
  import Wire

  // ----- the lines of a text -----

  /** A line as it is written: without line break, and not ending with a carriage return of its own. */
  predicate IsLine(t: string) {
    '\n' !in t && (t == [] || t[|t| - 1] != '\r')
  }

  /** A line with its ending: a line break, perhaps after a carriage return. */
  datatype Written = Written(line: string, returned: bool)

  function WrittenText(w: Written): string {
    w.line + if w.returned then "\r" else ""
  }

  /** The text of some lines; the last one has no line break. */
  function TextOf(ws: seq<Written>): string {
    if ws == [] then "" else if |ws| == 1 then WrittenText(ws[0]) else WrittenText(ws[0]) + ("\n" + TextOf(ws[1..]))
  }

  lemma {:induction false} SplitIs(ws: seq<Written>)
    requires ws != [] && forall k :: 0 <= k < |ws| ==> IsLine(ws[k].line)
    ensures |Wire.Split(TextOf(ws))| == |ws| && forall k :: 0 <= k < |ws| ==> Wire.Split(TextOf(ws))[k] == WrittenText(ws[k])
  {
    NoBreak(ws[0]);
    Wire.SplitFirstLine(WrittenText(ws[0]), TextOf(ws[1..]));
    if |ws| > 1 {
      SplitIs(ws[1..]);
    }
  }

  lemma NoBreak(w: Written)
    requires IsLine(w.line)
    ensures '\n' !in WrittenText(w) && Unreturned(WrittenText(w)) == w.line
  {
    assert w.returned ==> WrittenText(w)[..|WrittenText(w)| - 1] == w.line;
  }

  /** The lines of a text are those that are written, whatever they end with, and without a byte-order mark. */
  lemma {:induction false} LinesAsWritten(ws: seq<Written>)
    requires ws != [] && forall k :: 0 <= k < |ws| ==> IsLine(ws[k].line)
    ensures var mark := "\U{ef}\U{bb}\U{bf}";
            forall text | text == mark + TextOf(ws) || (text == TextOf(ws) && !(mark <= text)) ::
              |LinesOf(text)| == |ws| && forall k :: 0 <= k < |ws| ==> LinesOf(text)[k] == ws[k].line
  {
    hide Unreturned, WrittenText;
    SplitIs(ws);
    var mark := "\U{ef}\U{bb}\U{bf}";
    assert |mark| == 3 && (mark + TextOf(ws))[3..] == TextOf(ws);
    forall k | 0 <= k < |ws|
      ensures Unreturned(WrittenText(ws[k])) == ws[k].line
    {
      NoBreak(ws[k]);
    }
  }

  // ----- the text of an item -----

  /** What the lines that continue an item add to it. */
  function Added(lines: seq<string>, from: nat, to: nat): string
    requires from <= to <= |lines|
  {
    if from == to then "" else Added(lines, from, to - 1) + (" " + Trim(lines[to - 1]))
  }

  /** From the line after an item up to the first that does not continue it. */
  predicate ContinuedTo(lines: seq<string>, from: nat, to: nat) {
    && from <= to <= |lines| && (forall k :: from <= k < to ==> Continues(lines[k]))
    && (to < |lines| ==> !Continues(lines[to]))
  }

  lemma {:induction false} JoinedTo(text: string, lines: seq<string>, from: nat, m: nat, to: nat)
    requires ContinuedTo(lines, from, to) && from <= m <= to
    ensures Joined(text, lines, from) == Joined(text + Added(lines, from, m), lines, m)
    decreases m - from
  {
    hide Continues, Joined, Trim, Added;
    NothingAdded(lines, from);
    if m == from {
      assert text + "" == text;
    } else {
      JoinedTo(text, lines, from, m - 1, to);
      JoinedOne(text, lines, from, m - 1);
    }
  }

  lemma NothingAdded(lines: seq<string>, from: nat)
    requires from <= |lines|
    ensures Added(lines, from, from) == ""
  {}

  lemma JoinedOne(text: string, lines: seq<string>, from: nat, m: nat)
    requires from <= m < |lines| && Continues(lines[m])
    ensures Joined(text + Added(lines, from, m), lines, m) == Joined(text + Added(lines, from, m + 1), lines, m + 1)
  {
    hide Continues, Trim;
    assert Added(lines, from, m + 1) == Added(lines, from, m) + (" " + Trim(lines[m]));
    Appended(text, Added(lines, from, m), " ", Trim(lines[m]));
  }

  lemma Appended(a: string, b: string, c: string, d: string)
    ensures a + b + c + d == a + (b + (c + d))
  {}

  /** The text of an item: its own line without marker and checkbox, and all lines that continue it. */
  lemma {:induction false} ItemTextExact(lines: seq<string>, i: nat, to: nat)
    requires i < |lines| && ItemOf(lines[i]).Some? && ContinuedTo(lines, i + 1, to)
    ensures ItemText(lines, i) == Trim(Unchecked(ItemOf(lines[i]).value) + Added(lines, i + 1, to))
  {
    hide Continues;
    JoinedTo(Unchecked(ItemOf(lines[i]).value), lines, i + 1, to, to);
  }

  // ----- trimming -----

  lemma {:induction false} TrimStartIs(s: string) returns (a: nat)
    ensures a <= |s| && TrimStart(s) == s[a..] && Text.Blank(s[..a]) && SpaceLength(s[a..]) == 0
    decreases |s|
  {
    hide SpaceLength;
    var n := SpaceLength(s);
    if n == 0 {
      a := 0;
      assert s[0..] == s && s[..0] == "";
    } else {
      hide Text.Blank;
      var rest := TrimStartIs(s[n..]);
      a := n + rest;
      Sliced(s, n, rest);
      BlankFront(s, n, a);
    }
  }

  lemma Sliced(s: string, n: nat, k: nat)
    requires n + k <= |s|
    ensures s[n..][k..] == s[n + k..] && s[n..][..k] == s[n..n + k]
  {}

  lemma BlankFront(s: string, n: nat, a: nat)
    requires n == SpaceLength(s) > 0 && n <= a <= |s| && Text.Blank(s[n..a])
    ensures Text.Blank(s[..a])
  {
    assert s[..a][n..] == s[n..a];
    SpaceStays(s, a);
  }

  lemma SpaceStays(s: string, a: nat)
    requires SpaceLength(s) <= a <= |s| && SpaceLength(s) > 0
    ensures SpaceLength(s[..a]) == SpaceLength(s)
  {}

  lemma {:induction false} TrimEndIs(s: string) returns (b: nat)
    ensures b <= |s| && TrimEnd(s) == s[..b] && Text.Blank(s[b..]) && forall k :: 0 <= k < b ==> !Text.Blank(s[k..])
  {
    if Text.Blank(s) {
      b := 0;
      assert s[..0] == "" && s[0..] == s;
    } else {
      var rest := TrimEndIs(s[1..]);
      b := rest + 1;
      assert s[1..][rest..] == s[b..] && [s[0]] + s[1..][..rest] == s[..b];
      forall k | 0 <= k < b
        ensures !Text.Blank(s[k..])
      {
        if k > 0 {
          assert s[1..][k - 1..] == s[k..];
        } else {
          assert s[0..] == s;
        }
      }
    }
  }

  /** Trimming takes white space off both ends, and all of it. */
  lemma {:induction false} TrimExact(s: string) returns (a: nat, b: nat)
    ensures a <= b <= |s| && Trim(s) == s[a..b] && Text.Blank(s[..a]) && Text.Blank(s[b..])
    ensures SpaceLength(s[a..]) == 0 && forall k :: a <= k < b ==> !Text.Blank(s[k..])
  {
    hide TrimStart, TrimEnd, Text.Blank, SpaceLength;
    a := TrimStartIs(s);
    var n := TrimEndIs(s[a..]);
    b := a + n;
    assert s[a..][..n] == s[a..b] && s[a..][n..] == s[b..];
    forall k | a <= k < b
      ensures !Text.Blank(s[k..])
    {
      assert s[a..][k - a..] == s[k..];
    }
  }

  // ----- the document -----

  /** The lines before n on which an item starts that counts and is short enough, and those on which one is too long. */
  function ShortBefore(lines: seq<string>, n: nat, scopes: string -> bool): set<nat>
    requires n <= |lines|
  {
    set i: nat | i < n && Eligible(lines, i, scopes) && |ItemText(lines, i)| <= 1024
  }

  function LongBefore(lines: seq<string>, n: nat, scopes: string -> bool): set<nat>
    requires n <= |lines|
  {
    set i: nat | i < n && Eligible(lines, i, scopes) && |ItemText(lines, i)| > 1024
  }

  /** What the document says of the first n lines. */
  predicate Says(d: Document, lines: seq<string>, n: nat, scopes: string -> bool)
    requires n <= |lines|
  {
    var short := ShortBefore(lines, n, scopes);
    && |d.criteria| == (if |short| <= 100 then |short| else 100) && d.omitted == |short| - |d.criteria|
    && d.overlong == |LongBefore(lines, n, scopes)|
    && (forall k :: 0 <= k < |d.criteria| ==> d.criteria[k].id == k + 1)
    && (forall i :: i in short ==> IsCriterion(d, lines, i, scopes))
  }

  /** The item of line i is the criterion whose number is one more than those before it, unless a hundred are. */
  predicate IsCriterion(d: Document, lines: seq<string>, i: nat, scopes: string -> bool)
    requires i < |lines|
  {
    var k := |ShortBefore(lines, i, scopes)|;
    k < 100 ==> k < |d.criteria| && d.criteria[k] == Criterion(k + 1, ItemText(lines, i), i + 1)
  }

  lemma {:induction false} ShortNext(lines: seq<string>, n: nat, scopes: string -> bool)
    requires n < |lines|
    ensures var now := Eligible(lines, n, scopes);
            && ShortBefore(lines, n + 1, scopes) == ShortBefore(lines, n, scopes) + (if now && |ItemText(lines, n)| <= 1024 then {n} else {})
            && LongBefore(lines, n + 1, scopes) == LongBefore(lines, n, scopes) + (if now && |ItemText(lines, n)| > 1024 then {n} else {})
  {
    hide Eligible, ItemText;
  }

  lemma {:induction false} SaysShort(d: Document, e: Document, lines: seq<string>, n: nat, scopes: string -> bool)
    requires n < |lines| && Says(d, lines, n, scopes) && Eligible(lines, n, scopes) && |ItemText(lines, n)| <= 1024
    requires e == if |d.criteria| == 100 then d.(omitted := d.omitted + 1)
                  else d.(criteria := d.criteria + [Criterion(|d.criteria| + 1, ItemText(lines, n), n + 1)])
    ensures Says(e, lines, n + 1, scopes)
  {
    hide Eligible, ItemText, ShortBefore, LongBefore, IsCriterion;
    ShortNext(lines, n, scopes);
    NotYet(lines, n, scopes);
    NewCriterion(d, e, lines, n, scopes);
    CriteriaStay(d, e, lines, n, scopes);
  }

  lemma {:induction false} SaysOther(d: Document, e: Document, lines: seq<string>, n: nat, scopes: string -> bool)
    requires n < |lines| && Says(d, lines, n, scopes) && !(Eligible(lines, n, scopes) && |ItemText(lines, n)| <= 1024)
    requires e == if Eligible(lines, n, scopes) then d.(overlong := d.overlong + 1) else d
    ensures Says(e, lines, n + 1, scopes)
  {
    hide Eligible, ItemText, ShortBefore, LongBefore, IsCriterion;
    ShortNext(lines, n, scopes);
    NotYet(lines, n, scopes);
    CriteriaStay(d, e, lines, n, scopes);
  }

  lemma {:induction false} SaysNext(lines: seq<string>, n: nat, scopes: string -> bool)
    requires n < |lines| && Says(Read(lines, Items(lines, n, scopes)), lines, n, scopes)
    ensures Says(Read(lines, Items(lines, n + 1, scopes)), lines, n + 1, scopes)
  {
    hide Eligible, ItemText, Read, Says;
    var d := Read(lines, Items(lines, n, scopes));
    var e := Read(lines, Items(lines, n + 1, scopes));
    if Eligible(lines, n, scopes) {
      ReadNext(lines, Items(lines, n, scopes), n);
    } else {
      assert Items(lines, n, scopes) + [] == Items(lines, n, scopes);
    }
    if Eligible(lines, n, scopes) && |ItemText(lines, n)| <= 1024 {
      SaysShort(d, e, lines, n, scopes);
    } else {
      SaysOther(d, e, lines, n, scopes);
    }
  }

  lemma {:induction false} CriteriaStay(d: Document, e: Document, lines: seq<string>, n: nat, scopes: string -> bool)
    requires n <= |lines| && Says(d, lines, n, scopes) && d.criteria <= e.criteria
    ensures forall i :: i in ShortBefore(lines, n, scopes) ==> IsCriterion(e, lines, i, scopes)
  {
    hide Eligible, ItemText, IsCriterion;
    forall i | i in ShortBefore(lines, n, scopes)
      ensures IsCriterion(e, lines, i, scopes)
    {
      CriterionStays(d, e, lines, i, scopes);
    }
  }

  lemma CriterionStays(d: Document, e: Document, lines: seq<string>, i: nat, scopes: string -> bool)
    requires i < |lines| && IsCriterion(d, lines, i, scopes) && d.criteria <= e.criteria
    ensures IsCriterion(e, lines, i, scopes)
  {
    hide ItemText, ShortBefore;
  }

  lemma NewCriterion(d: Document, e: Document, lines: seq<string>, n: nat, scopes: string -> bool)
    requires n < |lines| && |d.criteria| == if |ShortBefore(lines, n, scopes)| <= 100 then |ShortBefore(lines, n, scopes)| else 100
    requires |d.criteria| < 100 ==> e.criteria == d.criteria + [Criterion(|d.criteria| + 1, ItemText(lines, n), n + 1)]
    ensures IsCriterion(e, lines, n, scopes)
  {
    hide ItemText, ShortBefore;
  }

  lemma NotYet(lines: seq<string>, n: nat, scopes: string -> bool)
    requires n <= |lines|
    ensures forall i :: i in ShortBefore(lines, n, scopes) || i in LongBefore(lines, n, scopes) ==> i < n
  {
    hide Eligible, ItemText;
  }

  lemma {:induction false} SaysUpTo(lines: seq<string>, n: nat, scopes: string -> bool)
    requires n <= |lines|
    ensures Says(Read(lines, Items(lines, n, scopes)), lines, n, scopes)
  {
    hide Eligible, ItemText, Items, Says, Read;
    if n == 0 {
      NothingSaid(lines, scopes);
    } else {
      SaysUpTo(lines, n - 1, scopes);
      SaysNext(lines, n - 1, scopes);
    }
  }

  lemma NothingSaid(lines: seq<string>, scopes: string -> bool)
    ensures Says(Read(lines, Items(lines, 0, scopes)), lines, 0, scopes)
  {
    hide Eligible, ItemText;
    assert ShortBefore(lines, 0, scopes) == {} && LongBefore(lines, 0, scopes) == {};
  }

  /**
   What a document says: its criteria are the first hundred lines on which an item starts that counts
   and has at most 1024 bytes, each numbered by how many stand before it, with the item's text and its
   line; the others are counted as too long or as omitted.
   */
  lemma {:induction false} DocumentExact(lines: seq<string>, scopes: string -> bool)
    ensures Says(Extracted(lines, scopes), lines, |lines|, scopes)
  {
    hide Says, Read, Items;
    SaysUpTo(lines, |lines|, scopes);
  }
}

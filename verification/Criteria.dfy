/** The extraction of acceptance criteria. */
module Criteria {
  import opened Json
  import opened Text
  import opened Markdown
  import Utf8
  import Wire

  const MAX_CRITERIA: nat := 100
  const MAX_CRITERION_BYTES: nat := 1024

  datatype Criterion = Criterion(id: nat, text: string, line: nat)
  datatype Document = Document(criteria: seq<Criterion>, overlong: nat, omitted: nat)

  // ----- what each line is -----

  /** The fence before the line that follows these. */
  function FenceAfter(lines: seq<string>): Fence {
    if lines == [] then CLOSED else Update(FenceAfter(lines[..|lines| - 1]), lines[|lines| - 1]).0
  }

  /** The line belongs to a fenced block. */
  predicate Hidden(lines: seq<string>, i: nat)
    requires i < |lines|
  {
    Update(FenceAfter(lines[..i]), lines[i]).1
  }

  /** A line as the scope sees it. What the title of a section of criteria must say is a parameter. */
  datatype Head = NoHead | Opens(level: nat) | Divides(level: nat)

  function HeadAt(lines: seq<string>, i: nat, scopes: string -> bool): (r: Head)
    requires i < |lines|
  {
    if Hidden(lines, i) then NoHead
    else match HeadingOf(lines[i])
         case None => NoHead
         case Some(h) => if scopes(h.title) then Opens(h.level) else Divides(h.level)
  }

  /** A section opened at line h still holds at line i: only deeper headings, or opening ones, since. */
  predicate Alive(lines: seq<string>, h: nat, i: nat, scopes: string -> bool)
    requires i <= |lines|
  {
    && h < i && HeadAt(lines, h, scopes).Opens?
    && forall k :: h < k < i && HeadAt(lines, k, scopes).Divides? ==> HeadAt(lines, k, scopes).level > HeadAt(lines, h, scopes).level
  }

  function LevelAt(lines: seq<string>, h: nat, scopes: string -> bool): nat
    requires h < |lines|
  {
    match HeadAt(lines, h, scopes) case NoHead => 0 case Opens(level) => level case Divides(level) => level
  }

  /** The declarative meaning of the scope. */
  predicate InScope(lines: seq<string>, i: nat, scopes: string -> bool)
    requires i <= |lines|
  {
    exists h :: 0 <= h < i && Alive(lines, h, i, scopes)
  }

  predicate AnyScope(lines: seq<string>, scopes: string -> bool) {
    exists h :: 0 <= h < |lines| && HeadAt(lines, h, scopes).Opens?
  }

  // ----- the items -----

  predicate IsItem(lines: seq<string>, i: nat)
    requires i < |lines|
  {
    !Hidden(lines, i) && HeadingOf(lines[i]).None? && !ThematicBreak(lines[i]) && ItemOf(lines[i]).Some?
  }

  /** An item's text with the lines that continue it, up to the first line that does not. */
  function Joined(text: string, lines: seq<string>, from: nat): string
    requires from <= |lines|
    decreases |lines| - from
  {
    if from < |lines| && Continues(lines[from]) then Joined(text + " " + Trim(lines[from]), lines, from + 1) else text
  }

  function ItemText(lines: seq<string>, i: nat): string
    requires i < |lines|
  {
    match ItemOf(lines[i])
    case Some(text) => Trim(Joined(Unchecked(text), lines, i + 1))
    case None => ""
  }

  /** The items that count: in scope, if the text has a scope at all, and not empty. */
  predicate Eligible(lines: seq<string>, i: nat, scopes: string -> bool)
    requires i < |lines|
  {
    IsItem(lines, i) && ItemText(lines, i) != "" && (AnyScope(lines, scopes) ==> InScope(lines, i, scopes))
  }

  /** The eligible items among the first n lines, in order, by the line they start on. */
  function Items(lines: seq<string>, n: nat, scopes: string -> bool): (r: seq<nat>)
    requires n <= |lines|
    ensures forall k :: 0 <= k < |r| ==> r[k] < n
  {
    if n == 0 then [] else Items(lines, n - 1, scopes) + if Eligible(lines, n - 1, scopes) then [n - 1] else []
  }

  lemma {:induction false} ItemsExact(lines: seq<string>, n: nat, scopes: string -> bool)
    requires n <= |lines|
    ensures forall i :: 0 <= i < n ==> (i in Items(lines, n, scopes) <==> Eligible(lines, i, scopes))
    ensures Rising(Items(lines, n, scopes))
  {
    hide Eligible;
    if n > 0 {
      ItemsExact(lines, n - 1, scopes);
    }
  }

  predicate Rising(s: seq<nat>) {
    forall j, k :: 0 <= j < k < |s| ==> s[j] < s[k]
  }

  predicate Fits(lines: seq<string>, i: nat)
    requires i < |lines|
  {
    |ItemText(lines, i)| <= MAX_CRITERION_BYTES
  }

  function Short(lines: seq<string>, items: seq<nat>): (r: seq<nat>)
    requires forall k :: 0 <= k < |items| ==> items[k] < |lines|
    ensures |r| <= |items| && forall k :: 0 <= k < |r| ==> r[k] < |lines| && Fits(lines, r[k])
  {
    if items == [] then []
    else Short(lines, items[..|items| - 1]) + if Fits(lines, items[|items| - 1]) then [items[|items| - 1]] else []
  }

  lemma {:induction false} ShortRises(lines: seq<string>, items: seq<nat>)
    requires forall k :: 0 <= k < |items| ==> items[k] < |lines|
    requires Rising(items)
    ensures Rising(Short(lines, items)) && Among(Short(lines, items), items)
  {
    hide Fits, Rising, Among;
    if items == [] {
      NothingRises();
    } else {
      var front, last := items[..|items| - 1], items[|items| - 1];
      RisingFront(items);
      ShortRises(lines, front);
      AmongNext(Short(lines, front), items);
      assert Short(lines, front) + [] == Short(lines, front);
      RisingNext(Short(lines, front), last);
    }
  }

  predicate Among(s: seq<nat>, t: seq<nat>) {
    forall x :: x in s ==> x in t
  }

  lemma NothingRises()
    ensures Rising([]) && Among([], [])
  {}

  lemma RisingFront(items: seq<nat>)
    requires Rising(items) && items != []
    ensures Rising(items[..|items| - 1])
  {}

  lemma AmongNext(s: seq<nat>, items: seq<nat>)
    requires items != [] && Rising(items) && Among(s, items[..|items| - 1])
    ensures Among(s, items) && Among(s + [items[|items| - 1]], items)
    ensures forall x :: x in s ==> x < items[|items| - 1]
  {
    forall x | x in s
      ensures x in items && x < items[|items| - 1]
    {
      assert x in items[..|items| - 1];
      var k :| 0 <= k < |items| - 1 && items[k] == x;
    }
  }

  lemma RisingNext(s: seq<nat>, x: nat)
    requires Rising(s) && forall k :: k in s ==> k < x
    ensures Rising(s + [x])
  {
    assert forall k :: 0 <= k < |s| ==> s[k] in s;
  }

  /** The document read off the items: the first hundred that are short enough, numbered, and two counts. */
  function Numbered(lines: seq<string>, short: seq<nat>): (r: seq<Criterion>)
    requires forall k :: 0 <= k < |short| ==> short[k] < |lines|
  {
    seq(if |short| <= MAX_CRITERIA then |short| else MAX_CRITERIA,
        k requires 0 <= k < |short| => Criterion(k + 1, ItemText(lines, short[k]), short[k] + 1))
  }

  function Read(lines: seq<string>, items: seq<nat>): Document
    requires forall k :: 0 <= k < |items| ==> items[k] < |lines|
  {
    var short := Short(lines, items);
    var criteria := Numbered(lines, short);
    Document(criteria, |items| - |short|, |short| - |criteria|)
  }

  function Extracted(lines: seq<string>, scopes: string -> bool): Document {
    Read(lines, Items(lines, |lines|, scopes))
  }

  /**
   What a document says: the numbers are 1, 2, ... in the order of the lines, every text is a
   non-empty item of at most 1024 bytes, no more than a hundred, and every item that counts is a
   criterion, or counted as too long, or counted as one too many.
   */
  lemma ExtractedConserves(lines: seq<string>, scopes: string -> bool)
    ensures var d := Extracted(lines, scopes);
            && (forall k :: 0 <= k < |d.criteria| ==>
                  d.criteria[k].id == k + 1 && 1 <= |d.criteria[k].text| <= MAX_CRITERION_BYTES && 1 <= d.criteria[k].line <= |lines|)
            && (forall j, k :: 0 <= j < k < |d.criteria| ==> d.criteria[j].line < d.criteria[k].line)
            && |d.criteria| <= MAX_CRITERIA && (d.omitted > 0 ==> |d.criteria| == MAX_CRITERIA)
            && |d.criteria| + d.overlong + d.omitted == |Items(lines, |lines|, scopes)|
  {
    hide ItemText, Eligible;
    var items := Items(lines, |lines|, scopes);
    ItemsExact(lines, |lines|, scopes);
    ShortRises(lines, items);
    assert Among(Short(lines, items), items) && Rising(Short(lines, items));
    forall k | k in items
      ensures 1 <= |ItemText(lines, k)|
    {
      EligibleHasText(lines, k, scopes);
    }
  }

  lemma EligibleHasText(lines: seq<string>, i: nat, scopes: string -> bool)
    requires i < |lines| && Eligible(lines, i, scopes)
    ensures 1 <= |ItemText(lines, i)|
  {}

  // ----- the automaton -----

  /** (inScope, scopeLevel) after a line. */
  function ScopeStep(inScope: bool, level: nat, h: Head): (bool, nat) {
    match h
    case NoHead => (inScope, level)
    case Opens(at) => (true, if !inScope || at <= level then at else level)
    case Divides(at) => (inScope && at > level, level)
  }

  /** The automaton's state stands for all the sections alive: their least level is the level it keeps. */
  ghost predicate Tracks(lines: seq<string>, i: nat, scopes: string -> bool, inScope: bool, level: nat)
    requires i <= |lines|
  {
    && (inScope ==> exists h :: 0 <= h < i && Alive(lines, h, i, scopes) && LevelAt(lines, h, scopes) == level)
    && (forall h :: 0 <= h < i && Alive(lines, h, i, scopes) ==> inScope && level <= LevelAt(lines, h, scopes))
  }

  lemma TracksScope(lines: seq<string>, i: nat, scopes: string -> bool, inScope: bool, level: nat)
    requires i <= |lines| && Tracks(lines, i, scopes, inScope, level)
    ensures inScope <==> InScope(lines, i, scopes)
  {
    hide Alive, LevelAt;
  }

  lemma AliveNext(lines: seq<string>, h: nat, i: nat, scopes: string -> bool)
    requires h <= i < |lines|
    ensures h < i ==> (Alive(lines, h, i + 1, scopes) <==>
                       Alive(lines, h, i, scopes)
                       && (HeadAt(lines, i, scopes).Divides? ==> LevelAt(lines, i, scopes) > LevelAt(lines, h, scopes)))
    ensures h == i ==> (Alive(lines, h, i + 1, scopes) <==> HeadAt(lines, i, scopes).Opens?)
  {
    hide HeadAt;
  }

  /** Each line moves the automaton exactly as it moves the sections alive. */
  lemma TracksNext(lines: seq<string>, i: nat, scopes: string -> bool, inScope: bool, level: nat)
    requires i < |lines| && Tracks(lines, i, scopes, inScope, level)
    ensures var (s, l) := ScopeStep(inScope, level, HeadAt(lines, i, scopes));
            Tracks(lines, i + 1, scopes, s, l)
  {
    hide Alive, HeadAt;
    forall h | 0 <= h <= i
      ensures h < i ==> (Alive(lines, h, i + 1, scopes) <==>
                         Alive(lines, h, i, scopes)
                         && (HeadAt(lines, i, scopes).Divides? ==> LevelAt(lines, i, scopes) > LevelAt(lines, h, scopes)))
      ensures h == i ==> (Alive(lines, h, i + 1, scopes) <==> HeadAt(lines, i, scopes).Opens?)
    {
      AliveNext(lines, h, i, scopes);
    }
    AliveNext(lines, i, i, scopes);
    var (now, at) := ScopeStep(inScope, level, HeadAt(lines, i, scopes));
    if inScope {
      var h :| 0 <= h < i && Alive(lines, h, i, scopes) && LevelAt(lines, h, scopes) == level;
      assert now ==> (LevelAt(lines, h, scopes) == at && Alive(lines, h, i + 1, scopes))
                     || (LevelAt(lines, i, scopes) == at && Alive(lines, i, i + 1, scopes));
    } else {
      assert now ==> LevelAt(lines, i, scopes) == at && Alive(lines, i, i + 1, scopes);
    }
    var n := i + 1;
    forall h | 0 <= h < n && Alive(lines, h, n, scopes)
      ensures now && at <= LevelAt(lines, h, scopes)
    {
      AliveNext(lines, h, i, scopes);
      if h < i {
        assert Alive(lines, h, i, scopes);
      }
    }
    assert Tracks(lines, n, scopes, now, at);
  }

  // ----- the parser -----

  /** The lines of a text, without a byte-order mark and without carriage returns before line breaks. */
  function LinesOf(text: string): seq<string> {
    var body := if "\U{ef}\U{bb}\U{bf}" <= text then text[3..] else text;
    var raw := Wire.Split(body);
    seq(|raw|, k requires 0 <= k < |raw| => Unreturned(raw[k]))
  }

  /** strings.TrimSuffix(line, "\r"). */
  function Unreturned(line: string): string {
    if line != [] && line[|line| - 1] == '\r' then line[..|line| - 1] else line
  }

  lemma FenceNext(lines: seq<string>, i: nat)
    requires i < |lines|
    ensures FenceAfter(lines[..i + 1]) == Update(FenceAfter(lines[..i]), lines[i]).0
  {
    assert lines[..i + 1][..i] == lines[..i];
  }

  /** A line that continues an item is neither a fence nor a heading nor an item, wherever it stands. */
  lemma ContinuationIsPlain(lines: seq<string>, i: nat, scopes: string -> bool)
    requires i < |lines| && Continues(lines[i]) && FenceAfter(lines[..i]).count == 0
    ensures FenceAfter(lines[..i + 1]) == FenceAfter(lines[..i])
    ensures HeadAt(lines, i, scopes) == NoHead && !Eligible(lines, i, scopes)
  {
    hide HeadingOf, FenceOf, ItemOf, ThematicBreak, InScope, AnyScope, ItemText;
    FenceNext(lines, i);
  }

  /** The first pass: is there any section of criteria? */
  method FindScope(lines: seq<string>, scopes: string -> bool) returns (scoped: bool)
    ensures scoped == AnyScope(lines, scopes)
  {
    hide HeadingOf, Update;
    var f := CLOSED;
    for i := 0 to |lines|
      invariant f == FenceAfter(lines[..i])
      invariant forall h :: 0 <= h < i ==> !HeadAt(lines, h, scopes).Opens?
    {
      FenceNext(lines, i);
      var (next, hidden) := Update(f, lines[i]);
      f := next;
      if hidden {
        continue;
      }
      var heading := HeadingOf(lines[i]);
      if heading.Some? && scopes(heading.value.title) {
        assert HeadAt(lines, i, scopes).Opens?;
        return true;
      }
    }
    return false;
  }

  /** The text of an item that starts on a line, and the line after the lines that continue it. */
  method ReadItem(lines: seq<string>, i: nat, text: string, scopes: string -> bool, ghost inScope: bool, ghost level: nat)
    returns (item: string, next: nat)
    requires i < |lines| && FenceAfter(lines[..i + 1]).count == 0
    requires Tracks(lines, i + 1, scopes, inScope, level)
    ensures i < next <= |lines| && item == Trim(Joined(Unchecked(text), lines, i + 1))
    ensures FenceAfter(lines[..next]) == FenceAfter(lines[..i + 1])
    ensures Tracks(lines, next, scopes, inScope, level)
    ensures Items(lines, next, scopes) == Items(lines, i + 1, scopes)
  {
    hide Tracks, Eligible, HeadAt, Continues, FenceAfter;
    item, next := Unchecked(text), i + 1;
    while next < |lines| && Continues(lines[next])
      invariant i < next <= |lines| && Joined(item, lines, next) == Joined(Unchecked(text), lines, i + 1)
      invariant FenceAfter(lines[..next]) == FenceAfter(lines[..i + 1])
      invariant Tracks(lines, next, scopes, inScope, level)
      invariant Items(lines, next, scopes) == Items(lines, i + 1, scopes)
    {
      ContinuationIsPlain(lines, next, scopes);
      TracksNext(lines, next, scopes, inScope, level);
      item := item + " " + Trim(lines[next]);
      next := next + 1;
    }
    item := Trim(item);
  }

  /** One item that counts, as the second pass takes it into the document. */
  method Include(d: Document, lines: seq<string>, i: nat, item: string, ghost items: seq<nat>) returns (r: Document)
    requires forall k :: 0 <= k < |items| ==> items[k] < |lines|
    requires i < |lines| && item == ItemText(lines, i) && d == Read(lines, items)
    ensures r == Read(lines, items + [i])
  {
    hide ItemText;
    ReadNext(lines, items, i);
    if |item| > MAX_CRITERION_BYTES {
      return d.(overlong := d.overlong + 1);
    }
    if |d.criteria| == MAX_CRITERIA {
      return d.(omitted := d.omitted + 1);
    }
    return d.(criteria := d.criteria + [Criterion(|d.criteria| + 1, item, i + 1)]);
  }

  lemma ReadNext(lines: seq<string>, items: seq<nat>, i: nat)
    requires forall k :: 0 <= k < |items| ==> items[k] < |lines|
    requires i < |lines|
    ensures var d, text := Read(lines, items), ItemText(lines, i);
            Read(lines, items + [i]) == if |text| > MAX_CRITERION_BYTES then d.(overlong := d.overlong + 1)
                                        else if |d.criteria| == MAX_CRITERIA then d.(omitted := d.omitted + 1)
                                        else d.(criteria := d.criteria + [Criterion(|d.criteria| + 1, text, i + 1)])
  {
    hide ItemText;
    assert (items + [i])[..|items|] == items;
    var short := Short(lines, items);
    if |ItemText(lines, i)| <= MAX_CRITERION_BYTES {
      assert Short(lines, items + [i]) == short + [i];
      NumberedNext(lines, short, i);
    } else {
      assert Short(lines, items + [i]) == short;
    }
  }

  lemma NumberedNext(lines: seq<string>, short: seq<nat>, i: nat)
    requires forall k :: 0 <= k < |short| ==> short[k] < |lines|
    requires i < |lines|
    ensures Numbered(lines, short + [i])
         == Numbered(lines, short) + if |short| >= MAX_CRITERIA then [] else [Criterion(|short| + 1, ItemText(lines, i), i + 1)]
  {
    hide ItemText;
  }

  /** The second pass. */
  method Extract(lines: seq<string>, scopes: string -> bool) returns (d: Document)
    ensures d == Extracted(lines, scopes)
  {
    hide HeadingOf, ThematicBreak, ItemOf, Update, Tracks, HeadAt, Read, Eligible, FenceAfter, ItemText;
    var scoped := FindScope(lines, scopes);
    var f, inScope, scopeLevel := CLOSED, false, 0;
    d := Document([], 0, 0);
    Start(lines, scopes);
    var i := 0;
    while i < |lines|
      invariant 0 <= i <= |lines| && f == FenceAfter(lines[..i])
      invariant Tracks(lines, i, scopes, inScope, scopeLevel)
      invariant d == Read(lines, Items(lines, i, scopes))
      decreases |lines| - i
    {
      var line := lines[i];
      FenceNext(lines, i);
      TracksNext(lines, i, scopes, inScope, scopeLevel);
      ItemHere(lines, i, scopes);
      ScopeHere(lines, i, scopes, inScope, scopeLevel);
      var (next, hidden) := Update(f, line);
      f := next;
      i := i + 1;
      if hidden {
        continue;
      }
      var heading := HeadingOf(line);
      if heading.Some? {
        if scopes(heading.value.title) {
          if !inScope || heading.value.level <= scopeLevel {
            scopeLevel := heading.value.level;
          }
          inScope := true;
        } else if inScope && heading.value.level <= scopeLevel {
          inScope := false;
        }
        continue;
      }
      if ThematicBreak(line) {
        continue;
      }
      var m := ItemOf(line);
      if m.None? {
        continue;
      }
      ghost var at := i - 1;
      OpenFence(lines, at);
      var item, after := ReadItem(lines, i - 1, m.value, scopes, inScope, scopeLevel);
      var start := i - 1;
      i := after;
      if item == "" || (scoped && !inScope) {
        continue;
      }
      d := Include(d, lines, start, item, Items(lines, at, scopes));
    }
  }

  lemma Start(lines: seq<string>, scopes: string -> bool)
    ensures FenceAfter(lines[..0]) == CLOSED && Tracks(lines, 0, scopes, false, 0)
    ensures Read(lines, Items(lines, 0, scopes)) == Document([], 0, 0)
  {}

  /** What the second pass decides about a line, in its own terms. */
  lemma ItemHere(lines: seq<string>, i: nat, scopes: string -> bool)
    requires i < |lines|
    ensures Items(lines, i + 1, scopes) == if Eligible(lines, i, scopes) then Items(lines, i, scopes) + [i] else Items(lines, i, scopes)
    ensures Eligible(lines, i, scopes) <==>
              && !Update(FenceAfter(lines[..i]), lines[i]).1 && HeadingOf(lines[i]).None? && !ThematicBreak(lines[i])
              && ItemOf(lines[i]).Some? && ItemText(lines, i) != "" && (AnyScope(lines, scopes) ==> InScope(lines, i, scopes))
    ensures ItemOf(lines[i]).Some? ==> ItemText(lines, i) == Trim(Joined(Unchecked(ItemOf(lines[i]).value), lines, i + 1))
  {
    hide HeadingOf, ThematicBreak, ItemOf, Update, InScope, AnyScope;
  }

  lemma ScopeHere(lines: seq<string>, i: nat, scopes: string -> bool, inScope: bool, level: nat)
    requires i < |lines| && Tracks(lines, i, scopes, inScope, level)
    ensures inScope <==> InScope(lines, i, scopes)
    ensures HeadAt(lines, i, scopes) == if Update(FenceAfter(lines[..i]), lines[i]).1 || HeadingOf(lines[i]).None? then NoHead
                                        else if scopes(HeadingOf(lines[i]).value.title) then Opens(HeadingOf(lines[i]).value.level)
                                        else Divides(HeadingOf(lines[i]).value.level)
  {
    hide HeadingOf, Update;
    TracksScope(lines, i, scopes, inScope, level);
  }

  lemma OpenFence(lines: seq<string>, i: nat)
    requires i < |lines| && !Update(FenceAfter(lines[..i]), lines[i]).1
    ensures Update(FenceAfter(lines[..i]), lines[i]).0.count == 0
  {}

  /** The text must be UTF-8 without NUL bytes. */
  predicate Readable(text: string) {
    Utf8.Valid(text) && '\0' !in text
  }

  /** Parse, with the digest of the exact text. */
  method Parse(text: string, scopes: string -> bool, hash: string -> string) returns (r: Option<Document>, digest: string)
    ensures digest == if !Readable(text) || text == "" then "" else hash(text)
    ensures r == if !Readable(text) then None else if text == "" then Some(Document([], 0, 0)) else Some(Extracted(LinesOf(text), scopes))
  {
    hide Extracted, LinesOf;
    if !Utf8.Valid(text) || '\0' in text {
      return None, "";
    }
    if text == "" {
      return Some(Document([], 0, 0)), "";
    }
    digest := hash(text);
    var d := Extract(LinesOf(text), scopes);
    r := Some(d);
  }
}

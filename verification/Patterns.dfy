/** The line patterns as regular expressions. */
module Patterns {
  import opened Json
  import opened Text
  import opened Markdown
  import Criteria

  predicate AllOf(s: string, i: nat, j: nat, c: char) {
    i <= j <= |s| && forall k :: i <= k < j ==> s[k] == c
  }

  predicate AllBlank(s: string, i: nat, j: nat) {
    i <= j <= |s| && forall k :: i <= k < j ==> s[k] == ' ' || s[k] == '\t'
  }

  // ----- headings: ^ {0,3}(#{1,6})(?:[ \t]+(.*?))?[ \t#]*$ -----

  predicate AllClosing(s: string, i: nat) {
    i <= |s| && forall k :: i <= k < |s| ==> s[k] == ' ' || s[k] == '\t' || s[k] == '#'
  }

  /** Spaces up to a, marks up to b, blanks up to c and the title up to d, or no title; then the closing sequence. */
  predicate HeadingSplit(s: string, a: nat, b: nat, c: nat, d: nat) {
    && a <= 3 && AllOf(s, 0, a, ' ') && a + 1 <= b <= a + 6 && AllOf(s, a, b, '#')
    && AllBlank(s, b, c) && c <= d && (c == b ==> d == c) && AllClosing(s, d)
  }

  /** The one a leftmost-first matcher takes: most marks, then most blanks, then the shortest title. */
  ghost predicate BestHeading(s: string, a: nat, b: nat, c: nat, d: nat) {
    && HeadingSplit(s, a, b, c, d)
    && forall a': nat, b': nat, c': nat, d': nat :: HeadingSplit(s, a', b', c', d') ==>
         a' == a && b' <= b && (b' == b ==> c' <= c && (c' == c ==> d <= d'))
  }

  lemma LeadIs(s: string, a: nat, c: char)
    requires AllOf(s, 0, a, c) && (a == |s| || s[a] != c)
    ensures Lead(s, c) == a
  {}

  /** Marks before position b are those of the run after the spaces. */
  lemma HeadingStarts(s: string, a: nat, b: nat, c: nat, d: nat)
    requires HeadingSplit(s, a, b, c, d)
    ensures a == Lead(s, ' ') && b - a <= Lead(s[a..], '#')
  {
    LeadIs(s, a, ' ');
    assert forall n :: 0 <= n < |s| - a ==> s[a..][n] == s[a + n];
  }

  lemma {:induction false} TitleIs(s: string) returns (n: nat)
    ensures n <= |s| && Title(s) == s[..n] && Closing(s[n..]) && (n > 0 ==> !Closing(s[n - 1..]))
  {
    hide Closing;
    if Closing(s) {
      n := 0;
      assert s[0..] == s && s[..0] == "";
    } else {
      NotClosing(s);
      var m := TitleIs(s[1..]);
      n := m + 1;
      assert s[1..][m..] == s[n..] && [s[0]] + s[1..][..m] == s[..n];
      assert m > 0 ==> s[1..][m - 1..] == s[m..];
      assert s[0..] == s;
    }
  }

  lemma NotClosing(s: string)
    requires !Closing(s)
    ensures s != []
  {}

  lemma ClosingIs(s: string, i: nat)
    requires i <= |s|
    ensures Closing(s[i..]) <==> AllClosing(s, i)
  {
    if Closing(s[i..]) {
      forall k | i <= k < |s|
        ensures s[k] == ' ' || s[k] == '\t' || s[k] == '#'
      {
        assert s[k] == s[i..][k - i];
      }
    }
  }

  lemma {:induction false} IndentIs(s: string, i: nat)
    requires i <= |s|
    ensures var c := i + Indent(s[i..]); AllBlank(s, i, c) && (c < |s| ==> s[c] != ' ' && s[c] != '\t')
    decreases |s| - i
  {
    if i < |s| && SpaceOrTab(s[i]) {
      IndentIs(s, i + 1);
      assert s[i..][1..] == s[i + 1..];
    }
  }

  /** When the spaces and the marks are within their bounds: a title after blanks, or a closing sequence at once. */
  lemma {:induction false} HeadingRest(s: string, a: nat, b: nat)
    requires a == Lead(s, ' ') <= 3 && b == a + Lead(s[a..], '#') && 1 <= b - a <= 6
    ensures match HeadingOf(s)
            case None => forall c: nat, d: nat :: !HeadingSplit(s, a, b, c, d)
            case Some(h) => exists c: nat, d: nat :: BestHeading(s, a, b, c, d) && h == Heading(b - a, s[c..d])
  {
    hide Title, Closing, Indent, Lead, BestHeading;
    var rest := s[b..];
    assert s[a..][b - a..] == rest;
    ClosingIs(s, b);
    IndentIs(s, b);
    var c := b + Indent(rest);
    MarksAre(s, a, b);
    if Closing(rest) {
      ClosingHeading(s, a, b, c);
    } else if SpaceOrTab(rest[0]) {
      TitledHeading(s, a, b, c);
    }
  }

  lemma MarksAre(s: string, a: nat, b: nat)
    requires a == Lead(s, ' ') <= 3 && b == a + Lead(s[a..], '#') && 1 <= b - a <= 6
    ensures AllOf(s, 0, a, ' ') && AllOf(s, a, b, '#') && (b < |s| ==> s[b] != '#')
  {
    forall k | a <= k < b
      ensures s[k] == '#'
    {
      assert s[k] == s[a..][k - a];
    }
    assert b < |s| ==> s[b] == s[a..][b - a];
  }

  lemma ClosingHeading(s: string, a: nat, b: nat, c: nat)
    requires a == Lead(s, ' ') <= 3 && b == a + Lead(s[a..], '#') && 1 <= b - a <= 6
    requires AllOf(s, 0, a, ' ') && AllOf(s, a, b, '#') && AllClosing(s, b)
    requires AllBlank(s, b, c) && (c < |s| ==> s[c] != ' ' && s[c] != '\t')
    ensures BestHeading(s, a, b, c, c) && s[c..c] == ""
  {
    hide Lead;
    assert HeadingSplit(s, a, b, c, c);
    forall a': nat, b': nat, c': nat, d': nat | HeadingSplit(s, a', b', c', d')
      ensures a' == a && b' <= b && (b' == b ==> c' <= c && (c' == c ==> c <= d'))
    {
      HeadingStarts(s, a', b', c', d');
    }
  }

  lemma TitledHeading(s: string, a: nat, b: nat, c: nat)
    requires a == Lead(s, ' ') <= 3 && b == a + Lead(s[a..], '#') && 1 <= b - a <= 6
    requires AllOf(s, 0, a, ' ') && AllOf(s, a, b, '#') && b < c && !AllClosing(s, b)
    requires AllBlank(s, b, c) && (c < |s| ==> s[c] != ' ' && s[c] != '\t')
    ensures exists d: nat :: c <= d <= |s| && BestHeading(s, a, b, c, d) && Title(s[c..]) == s[c..d]
  {
    hide Lead, Title, Closing;
    var d := TitleEnds(s, c);
    if c == d {
      ClosingBlank(s, b, c);
    }
    assert HeadingSplit(s, a, b, c, d);
    forall a': nat, b': nat, c': nat, d': nat | HeadingSplit(s, a', b', c', d')
      ensures a' == a && b' <= b && (b' == b ==> c' <= c && (c' == c ==> d <= d'))
    {
      HeadingStarts(s, a', b', c', d');
    }
  }

  lemma ClosingBlank(s: string, b: nat, c: nat)
    requires b <= c && AllBlank(s, b, c)
    ensures AllClosing(s, c) ==> AllClosing(s, b)
  {}

  /** The title of the rest of a line ends where the closing sequence can start first. */
  lemma TitleEnds(s: string, c: nat) returns (d: nat)
    requires c <= |s|
    ensures c <= d <= |s| && Title(s[c..]) == s[c..d] && AllClosing(s, d)
    ensures forall d': nat :: c <= d' && AllClosing(s, d') ==> d <= d'
  {
    hide Title, Closing;
    var n := TitleIs(s[c..]);
    d := c + n;
    assert s[c..][..n] == s[c..d] && s[c..][n..] == s[d..];
    ClosingIs(s, d);
    if n > 0 {
      assert s[c..][n - 1..] == s[d - 1..];
      ClosingIs(s, d - 1);
    }
  }

  lemma ClosingShrinks(s: string, i: nat, j: nat)
    requires AllClosing(s, i) && i <= j <= |s|
    ensures AllClosing(s, j)
  {}

  /** heading answers for a line exactly when its pattern matches, and with the groups of that match. */
  lemma {:induction false} HeadingExact(s: string)
    ensures match HeadingOf(s)
            case None => forall a: nat, b: nat, c: nat, d: nat :: !HeadingSplit(s, a, b, c, d)
            case Some(h) => exists a: nat, b: nat, c: nat, d: nat :: BestHeading(s, a, b, c, d) && h == Heading(b - a, s[c..d])
  {
    hide Title, Closing, Indent, Lead, BestHeading;
    var a := Lead(s, ' ');
    var b := a + Lead(s[a..], '#');
    forall a': nat, b': nat, c': nat, d': nat | HeadingSplit(s, a', b', c', d')
      ensures a' == a && a <= 3 && b' <= b && b > a
    {
      HeadingStarts(s, a', b', c', d');
    }
    if a <= 3 && 1 <= b - a <= 6 {
      HeadingRest(s, a, b);
      forall a': nat, b': nat, c': nat, d': nat | HeadingSplit(s, a', b', c', d')
        ensures exists c: nat, d: nat :: HeadingSplit(s, a, b, c, d)
      {
        FewerMarks(s, a, b, b', c', d');
      }
    } else if a <= 3 && b - a > 6 {
      ManyMarks(s, a, b);
    }
  }

  /** With fewer marks than there are, only a closing sequence may follow, and then it follows all of them too. */
  lemma FewerMarks(s: string, a: nat, b: nat, b': nat, c': nat, d': nat)
    requires a == Lead(s, ' ') <= 3 && b == a + Lead(s[a..], '#') && 1 <= b - a <= 6
    requires HeadingSplit(s, a, b', c', d')
    ensures exists c: nat, d: nat :: HeadingSplit(s, a, b, c, d)
  {
    hide Lead;
    MarksAre(s, a, b);
    HeadingStarts(s, a, b', c', d');
    if b' < b {
      assert s[b'] == '#';
      ClosingShrinks(s, b', b);
      assert HeadingSplit(s, a, b, b, b);
    } else {
      assert HeadingSplit(s, a, b, c', d');
    }
  }

  lemma ManyMarks(s: string, a: nat, b: nat)
    requires a == Lead(s, ' ') <= 3 && b == a + Lead(s[a..], '#') && b - a > 6
    ensures match HeadingOf(s)
            case None => forall a': nat, b': nat, c: nat, d: nat :: !HeadingSplit(s, a', b', c, d)
            case Some(h) => exists a': nat, b': nat, c: nat, d: nat :: BestHeading(s, a', b', c, d) && h == Heading(b' - a', s[c..d])
  {
    hide Lead, Closing;
    var e := a + 6;
    assert s[a..][b - a..] == s[b..];
    ClosingIs(s, b);
    forall k | a <= k < b
      ensures s[k] == '#'
    {
      assert s[k] == s[a..][k - a];
    }
    forall a': nat, b': nat, c': nat, d': nat | HeadingSplit(s, a', b', c', d')
      ensures a' == a && b' <= e && c' == b' && d' == b' && AllClosing(s, b)
    {
      HeadingStarts(s, a', b', c', d');
      assert s[b'] == '#';
      ClosingShrinks(s, b', b);
    }
    if Closing(s[b..]) {
      assert HeadingSplit(s, a, e, e, e);
      assert BestHeading(s, a, e, e, e) && s[e..e] == "";
    }
  }

  // ----- fences: ^ {0,3}(`{3,}|~{3,}) -----

  predicate FenceSplit(s: string, a: nat, b: nat, c: char) {
    a <= 3 && AllOf(s, 0, a, ' ') && a + 3 <= b && AllOf(s, a, b, c) && (c == '`' || c == '~')
  }

  /** A fence with as many marks as there are, and whether nothing but white space follows. */
  predicate FenceIs(s: string, f: (Fence, bool), a: nat, b: nat) {
    FenceSplit(s, a, b, f.0.mark) && f.0.count == b - a && (b < |s| ==> s[b] != f.0.mark) && (f.1 <==> Text.Blank(s[b..]))
  }

  lemma RunIs(s: string, a: nat, b: nat, c: char)
    requires a <= |s| && b == a + Lead(s[a..], c)
    ensures AllOf(s, a, b, c) && (b < |s| ==> s[b] != c) && s[a..][b - a..] == s[b..]
  {
    assert forall n :: 0 <= n < |s| - a ==> s[a..][n] == s[a + n];
    forall k | a <= k < b
      ensures s[k] == c
    {
      assert s[k] == s[a..][k - a];
    }
  }

  /** A line is a fence exactly when its pattern matches, with all the marks of its kind. */
  lemma FenceExact(s: string)
    ensures match FenceOf(s)
            case None => forall a: nat, b: nat, c: char :: !FenceSplit(s, a, b, c)
            case Some(f) => exists a: nat, b: nat :: FenceIs(s, f, a, b)
  {
    hide Lead, Text.Blank;
    var a := Lead(s, ' ');
    forall a': nat, b': nat, c: char | FenceSplit(s, a', b', c)
      ensures a' == a && a < |s| && s[a] == c && b' <= a + Lead(s[a..], c)
    {
      LeadIs(s, a', ' ');
      RunIs(s, a, a + Lead(s[a..], c), c);
    }
    if a <= 3 {
      var c := if s[a..] != [] && s[a..][0] == '~' then '~' else '`';
      RunIs(s, a, a + Lead(s[a..], c), c);
      if FenceOf(s).Some? {
        assert FenceIs(s, FenceOf(s).value, a, a + Lead(s[a..], c));
      }
    }
  }

  // ----- the lines of fenced blocks -----

  /** Line q closes a block that line p opened: the same mark, at least as many, and nothing more. */
  predicate Ends(lines: seq<string>, p: nat, q: nat)
    requires p < |lines| && q < |lines|
  {
    && FenceOf(lines[p]).Some? && FenceOf(lines[q]).Some? && FenceOf(lines[q]).value.1
    && FenceOf(lines[q]).value.0.mark == FenceOf(lines[p]).value.0.mark
    && FenceOf(lines[q]).value.0.count >= FenceOf(lines[p]).value.0.count
  }

  /** Line p opens a block: it is a fence, and each block opened before it has been closed. */
  predicate Opens(lines: seq<string>, p: nat)
    requires p < |lines|
  {
    FenceOf(lines[p]).Some? && forall o :: 0 <= o < p && Opens(lines, o) ==> exists q :: o < q < p && Ends(lines, o, q)
  }

  /** The block of line p is open before line i. */
  predicate OpenAt(lines: seq<string>, p: nat, i: nat)
    requires p < i <= |lines|
  {
    Opens(lines, p) && forall q :: p < q < i ==> !Ends(lines, p, q)
  }

  /** What the fence before line i stands for. */
  ghost predicate Stands(lines: seq<string>, i: nat, f: Fence)
    requires i <= |lines|
  {
    if f.count == 0 then forall p :: 0 <= p < i ==> !OpenAt(lines, p, i)
    else exists p :: 0 <= p < i && OpenAt(lines, p, i) && FenceOf(lines[p]).value.0 == f
  }

  lemma {:induction false} FenceStands(lines: seq<string>, i: nat)
    requires i <= |lines|
    ensures Stands(lines, i, Criteria.FenceAfter(lines[..i]))
  {
    hide FenceOf;
    if i > 0 {
      FenceStands(lines, i - 1);
      assert lines[..i][..i - 1] == lines[..i - 1];
      StandsNext(lines, i - 1, Criteria.FenceAfter(lines[..i - 1]));
    }
  }

  lemma {:induction false} StandsNext(lines: seq<string>, i: nat, f: Fence)
    requires i < |lines| && Stands(lines, i, f)
    ensures Stands(lines, i + 1, Update(f, lines[i]).0)
  {
    hide FenceOf;
    var next := Update(f, lines[i]).0;
    if f.count == 0 {
      ClosedNext(lines, i, i + 1);
      if FenceOf(lines[i]).Some? {
        assert OpenAt(lines, i, i + 1);
      }
    } else {
      var p: nat :| 0 <= p < i && OpenAt(lines, p, i) && FenceOf(lines[p]).value.0 == f;
      OpenNext(lines, i, i + 1, p);
      if next.count > 0 {
        assert OpenAt(lines, p, i + 1);
      }
    }
  }

  /** When no block is open, the next line opens one exactly when it is a fence. */
  lemma {:induction false} ClosedNext(lines: seq<string>, i: nat, n: nat)
    requires i < |lines| && n == i + 1 && forall p :: 0 <= p < i ==> !OpenAt(lines, p, i)
    ensures Opens(lines, i) <==> FenceOf(lines[i]).Some?
    ensures forall p :: 0 <= p < i ==> !OpenAt(lines, p, n)
  {
    hide FenceOf, Ends;
    forall o | 0 <= o < i && Opens(lines, o)
      ensures exists q :: o < q < i && Ends(lines, o, q)
    {
      assert !OpenAt(lines, o, i);
    }
  }

  /** While one is open no other opens, and it stays open unless the line closes it. */
  lemma {:induction false} OpenNext(lines: seq<string>, i: nat, n: nat, p: nat)
    requires p < i < |lines| && n == i + 1 && OpenAt(lines, p, i)
    ensures OpenAt(lines, p, n) <==> !Ends(lines, p, i)
    ensures forall q :: 0 <= q < n && q != p ==> !OpenAt(lines, q, n)
  {
    hide FenceOf, Ends;
    forall q | 0 <= q < n && q != p
      ensures !OpenAt(lines, q, n)
    {
      if q > p {
        NotInside(lines, p, q);
      }
    }
  }

  /** A line inside a block opens none. */
  lemma {:induction false} NotInside(lines: seq<string>, p: nat, q: nat)
    requires p < q < |lines| && OpenAt(lines, p, q)
    ensures !Opens(lines, q)
  {
    hide FenceOf, Ends;
  }

  /** A line belongs to a fenced block exactly when it opens one or one is open before it. */
  lemma {:induction false} HiddenExact(lines: seq<string>, i: nat)
    requires i < |lines|
    ensures Criteria.Hidden(lines, i) <==> Opens(lines, i) || exists p :: 0 <= p < i && OpenAt(lines, p, i)
  {
    hide FenceOf, Ends;
    FenceStands(lines, i);
    var f := Criteria.FenceAfter(lines[..i]);
    if f.count == 0 {
      ClosedNext(lines, i, i + 1);
    }
  }

  // ----- thematic breaks -----

  /** After at most three spaces a mark, and behind it only blanks and the same mark, at least twice. */
  predicate BreakSplit(s: string, a: nat, j: nat, k: nat) {
    && a <= 3 && AllOf(s, 0, a, ' ') && a < j < k < |s| && (s[a] == '-' || s[a] == '*' || s[a] == '_')
    && s[j] == s[a] && s[k] == s[a] && forall i :: a <= i < |s| ==> s[i] == ' ' || s[i] == '\t' || s[i] == s[a]
  }

  /** The next mark at or after a position, if there is one. */
  lemma {:induction false} NextMark(s: string, i: nat, c: char) returns (k: nat)
    requires i <= |s| && Marks(s[i..], c) > 0
    ensures i <= k < |s| && s[k] == c && Marks(s[k + 1..], c) == Marks(s[i..], c) - 1
    ensures forall j :: i <= j < k ==> s[j] != c
    decreases |s| - i
  {
    assert s[i..] != [] && s[i..][0] == s[i] && s[i..][1..] == s[i + 1..];
    if s[i] == c {
      k := i;
    } else {
      k := NextMark(s, i + 1, c);
    }
  }

  lemma {:induction false} MarkAt(s: string, i: nat, k: nat, c: char)
    requires i <= k < |s| && s[k] == c
    ensures Marks(s[i..], c) >= 1 + Marks(s[k + 1..], c)
    decreases k - i
  {
    assert s[i..] != [] && s[i..][0] == s[i] && s[i..][1..] == s[i + 1..];
    if i < k {
      MarkAt(s, i + 1, k, c);
    }
  }

  /** A line is a thematic break exactly when its pattern matches with one kind of mark. */
  lemma {:induction false} BreakExact(s: string)
    ensures ThematicBreak(s) <==> exists a: nat, j: nat, k: nat :: BreakSplit(s, a, j, k)
  {
    hide Lead, Marks;
    var a := Lead(s, ' ');
    assert forall n :: 0 <= n < |s| - a ==> s[a..][n] == s[a + n];
    if ThematicBreak(s) {
      var c := s[a];
      var i := NextMark(s, a, c);
      var j := NextMark(s, i + 1, c);
      var k := NextMark(s, j + 1, c);
      assert BreakSplit(s, a, j, k);
    }
    if a': nat, j: nat, k: nat :| BreakSplit(s, a', j, k) {
      LeadIs(s, a', ' ');
      MarkAt(s, a, a, s[a]);
      MarkAt(s, a + 1, j, s[a]);
      MarkAt(s, j + 1, k, s[a]);
    }
  }

  // ----- list items: ^[ \t]*(?:[-*+]|[0-9]{1,9}[.)])[ \t]+(.*)$ -----

  predicate MarkerFrom(s: string, a: nat, b: nat) {
    && a < b <= |s|
    && if b == a + 1 then s[a] == '-' || s[a] == '*' || s[a] == '+'
       else b <= a + 10 && (s[b - 1] == '.' || s[b - 1] == ')') && forall k :: a <= k < b - 1 ==> '0' <= s[k] <= '9'
  }

  predicate ItemSplit(s: string, a: nat, b: nat, c: nat) {
    AllBlank(s, 0, a) && MarkerFrom(s, a, b) && b < c && AllBlank(s, b, c)
  }

  lemma {:induction false} DigitsAre(s: string, i: nat)
    requires i <= |s|
    ensures var n := DigitRun(s[i..]); (forall k :: i <= k < i + n ==> '0' <= s[k] <= '9') && (i + n < |s| ==> !('0' <= s[i + n] <= '9'))
    decreases |s| - i
  {
    if i < |s| && IsDigit(s[i]) {
      DigitsAre(s, i + 1);
      assert s[i..][1..] == s[i + 1..];
    }
  }

  lemma {:induction false} MarkerIs(s: string, a: nat)
    requires a <= |s|
    ensures var n := MarkerLength(s[a..]);
            && (n > 0 ==> MarkerFrom(s, a, a + n))
            && forall b: nat :: MarkerFrom(s, a, b) ==> n > 0 && b == a + n
  {
    hide DigitRun;
    DigitsAre(s, a);
    assert forall n :: 0 <= n < |s| - a ==> s[a..][n] == s[a + n];
    forall b: nat | MarkerFrom(s, a, b)
      ensures MarkerLength(s[a..]) > 0 && b == a + MarkerLength(s[a..])
    {
      InSigns(s[a]);
      if b > a + 1 {
        DigitsUpTo(s, a, b);
        InEnds(s[b - 1]);
      }
    }
    if MarkerLength(s[a..]) > 0 {
      InSigns(s[a]);
      if MarkerLength(s[a..]) > 1 {
        InEnds(s[a + MarkerLength(s[a..]) - 1]);
      }
    }
  }

  lemma InSigns(c: char)
    ensures c in "-*+" <==> c == '-' || c == '*' || c == '+'
  {
    assert "-*+" == ['-', '*', '+'];
  }

  lemma InEnds(c: char)
    ensures c in ".)" <==> c == '.' || c == ')'
  {
    assert ".)" == ['.', ')'];
  }

  lemma DigitsUpTo(s: string, a: nat, b: nat)
    requires MarkerFrom(s, a, b) && b > a + 1
    ensures DigitRun(s[a..]) == b - 1 - a
  {
    hide DigitRun;
    DigitsAre(s, a);
  }

  /** A line is an item exactly when its pattern matches, and its text is what follows all the blanks. */
  lemma {:induction false} ItemExact(s: string)
    ensures match ItemOf(s)
            case None => forall a: nat, b: nat, c: nat :: !ItemSplit(s, a, b, c)
            case Some(t) => exists a: nat, b: nat, c: nat :: ItemSplit(s, a, b, c) && t == s[c..] && (c < |s| ==> s[c] != ' ' && s[c] != '\t')
  {
    hide Indent, MarkerLength, MarkerFrom;
    var a := Indent(s);
    assert s[0..] == s;
    IndentIs(s, 0);
    MarkerIs(s, a);
    var n := MarkerLength(s[a..]);
    forall a': nat, b: nat, c: nat | ItemSplit(s, a', b, c)
      ensures a' == a && n > 0 && b == a + n && b < |s| && (s[b] == ' ' || s[b] == '\t')
    {
      MarkerStarts(s, a', b);
      MarkerIs(s, a');
    }
    if n > 0 && n < |s[a..]| {
      assert s[a..][n] == s[a + n] && s[a..][n..] == s[a + n..];
      IndentIs(s, a + n);
      var c := a + n + Indent(s[a + n..]);
      assert s[a..][n + Indent(s[a + n..])..] == s[c..];
      if SpaceOrTab(s[a + n]) {
        IndentPositive(s[a + n..]);
        assert ItemSplit(s, a, a + n, c);
      }
    }
  }

  lemma IndentPositive(s: string)
    requires s != [] && SpaceOrTab(s[0])
    ensures Indent(s) > 0
  {}

  lemma MarkerStarts(s: string, a: nat, b: nat)
    requires MarkerFrom(s, a, b)
    ensures s[a] != ' ' && s[a] != '\t'
  {}

  // ----- checkboxes: ^\[[ xX]\](?:[ \t]+|$) -----

  predicate BoxSplit(s: string, c: nat) {
    && 3 <= c <= |s| && s[0] == '[' && (s[1] == ' ' || s[1] == 'x' || s[1] == 'X') && s[2] == ']'
    && AllBlank(s, 3, c) && (c > 3 || |s| == 3)
  }

  /** A checkbox is taken off with all the blanks behind it; any other text stays. */
  lemma {:induction false} UncheckedExact(s: string)
    ensures (forall c: nat :: !BoxSplit(s, c)) ==> Unchecked(s) == s
    ensures forall c: nat :: BoxSplit(s, c) ==>
              exists d: nat :: c <= d && BoxSplit(s, d) && (d < |s| ==> s[d] != ' ' && s[d] != '\t') && Unchecked(s) == s[d..]
  {
    hide Indent;
    if |s| >= 3 {
      InBox(s[1]);
      IndentIs(s, 3);
      var d := 3 + Indent(s[3..]);
      if |s| > 3 && SpaceOrTab(s[3]) {
        IndentPositive(s[3..]);
      }
      forall c: nat | BoxSplit(s, c)
        ensures exists d: nat :: c <= d && BoxSplit(s, d) && (d < |s| ==> s[d] != ' ' && s[d] != '\t') && Unchecked(s) == s[d..]
      {
        assert BoxSplit(s, d) && c <= d;
      }
      if Unchecked(s) != s {
        assert BoxSplit(s, d);
      }
    }
  }

  lemma InBox(c: char)
    ensures c in " xX" <==> c == ' ' || c == 'x' || c == 'X'
  {
    assert " xX" == [' ', 'x', 'X'];
  }
}

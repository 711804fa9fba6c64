/**
 The lines of an intent text: headings, fences, thematic breaks, list items, task checkboxes and the
 lines that continue an item, each as its pattern reads it.
 */
module Markdown {
  import opened Json
  import opened Text

  /** How many of a character a line starts with. */
  function Lead(s: string, c: char): (n: nat)
    ensures n <= |s| && (forall k :: 0 <= k < n ==> s[k] == c) && (n < |s| ==> s[n] != c)
  {
    if s == [] || s[0] != c then 0 else 1 + Lead(s[1..], c)
  }

  predicate SpaceOrTab(c: char) {
    c == ' ' || c == '\t'
  }

  function Indent(s: string): (n: nat)
    ensures n <= |s|
  {
    if s == [] || !SpaceOrTab(s[0]) then 0 else 1 + Indent(s[1..])
  }

  /** The line without an indent of at most three spaces, which is all a heading or a fence may have. */
  function Body(s: string): Option<string> {
    if Lead(s, ' ') <= 3 then Some(s[Lead(s, ' ')..]) else None
  }

  // ----- trimming -----

  function TrimStart(s: string): (r: string)
    ensures |r| <= |s|
    decreases |s|
  {
    if SpaceLength(s) > 0 then TrimStart(s[SpaceLength(s)..]) else s
  }

  function TrimEnd(s: string): (r: string)
    ensures |r| <= |s|
  {
    if Blank(s) then "" else [s[0]] + TrimEnd(s[1..])
  }

  function Trim(s: string): (r: string)
    ensures |r| <= |s|
  {
    TrimEnd(TrimStart(s))
  }

  // ----- headings -----

  predicate Closing(s: string) {
    forall k :: 0 <= k < |s| ==> SpaceOrTab(s[k]) || s[k] == '#'
  }

  /** The title without the closing sequence of the heading. */
  function Title(s: string): string {
    if Closing(s) then "" else [s[0]] + Title(s[1..])
  }

  datatype Heading = Heading(level: nat, title: string)

  /** heading, up to the white space and the case of the title. */
  function HeadingOf(line: string): (r: Option<Heading>)
    ensures r.Some? ==> 1 <= r.value.level <= 6
  {
    match Body(line)
    case None => None
    case Some(body) =>
      var marks := Lead(body, '#');
      var rest := body[marks..];
      if marks == 0 then None
      else if Closing(rest) then Some(Heading(if marks > 6 then 6 else marks, ""))
      else if marks <= 6 && SpaceOrTab(rest[0]) then Some(Heading(marks, Title(rest[Indent(rest)..])))
      else None
  }

  // ----- fences -----

  datatype Fence = Fence(mark: char, count: nat)

  const CLOSED := Fence(' ', 0)

  /** A line of at least three back quotes or tildes; whether nothing follows them. */
  function FenceOf(line: string): (r: Option<(Fence, bool)>)
    ensures r.Some? ==> r.value.0.count >= 3
  {
    match Body(line)
    case None => None
    case Some(body) =>
      var c := if body != [] && body[0] == '~' then '~' else '`';
      var n := Lead(body, c);
      if n < 3 then None else Some((Fence(c, n), Blank(body[n..])))
  }

  /** fence.update: the fence after a line, and whether the line belongs to a fenced block. */
  function Update(f: Fence, line: string): (Fence, bool) {
    var m := FenceOf(line);
    if f.count == 0 then (if m.None? then (f, false) else (m.value.0, true))
    else if m.Some? && m.value.0.mark == f.mark && m.value.0.count >= f.count && m.value.1 then (f.(count := 0), true)
    else (f, true)
  }

  // ----- thematic breaks and list items -----

  function Marks(s: string, c: char): nat {
    if s == [] then 0 else (if s[0] == c then 1 else 0) + Marks(s[1..], c)
  }

  predicate ThematicBreak(line: string) {
    match Body(line)
    case None => false
    case Some(body) =>
      && body != [] && body[0] in "-*_"
      && (forall k :: 0 <= k < |body| ==> SpaceOrTab(body[k]) || body[k] == body[0])
      && Marks(body, body[0]) >= 3
  }

  function DigitRun(s: string): (n: nat)
    ensures n <= |s|
  {
    if s == [] || !IsDigit(s[0]) then 0 else 1 + DigitRun(s[1..])
  }

  /** The length of a list marker: a bullet, or up to nine digits and a delimiter. */
  function MarkerLength(s: string): (n: nat)
    ensures n <= |s|
  {
    if s == [] then 0
    else if s[0] in "-*+" then 1
    else
      var n := DigitRun(s);
      if 1 <= n <= 9 && n < |s| && s[n] in ".)" then n + 1 else 0
  }

  /** The text after a list marker and its white space. */
  function ItemOf(line: string): Option<string> {
    var s := line[Indent(line)..];
    var n := MarkerLength(s);
    if n == 0 || n == |s| || !SpaceOrTab(s[n]) then None else Some(s[n + Indent(s[n..])..])
  }

  /** The text of an item without its task checkbox. */
  function Unchecked(s: string): string {
    if |s| >= 3 && s[0] == '[' && s[1] in " xX" && s[2] == ']' && (|s| == 3 || SpaceOrTab(s[3])) then
      s[3 + Indent(s[3..])..]
    else s
  }

  /** continuation. */
  predicate Continues(line: string) {
    && !Blank(line) && ("  " <= line || "\t" <= line)
    && ItemOf(line).None? && !ThematicBreak(line) && FenceOf(line).None? && HeadingOf(line).None?
  }
}

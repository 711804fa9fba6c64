/**
 The operations on byte strings that the readers of coverage reports and intent texts use: searching,
 white space in UTF-8, numbers as strconv reads them, and the order of Go strings.
 */
module Text {
  import opened Json

  const MAX_INT: int := 0x7fff_ffff_ffff_ffff

  // ----- searching -----

  predicate At(s: string, sub: string, i: int) {
    0 <= i <= |s| - |sub| && s[i..i + |sub|] == sub
  }

  ghost predicate Contains(s: string, sub: string) {
    exists i :: At(s, sub, i)
  }

  /** The leftmost occurrence at or after a position. */
  function IndexFrom(s: string, sub: string, from: nat): (r: Option<nat>)
    ensures r.Some? ==> from <= r.value && At(s, sub, r.value) && forall i :: from <= i < r.value ==> !At(s, sub, i)
    ensures r.None? ==> forall i :: from <= i ==> !At(s, sub, i)
    decreases |s| - from
  {
    if from + |sub| > |s| then None else if At(s, sub, from) then Some(from) else IndexFrom(s, sub, from + 1)
  }

  /** strings.Index: the leftmost occurrence. */
  function Index(s: string, sub: string): (r: Option<nat>)
    ensures r.Some? ==> At(s, sub, r.value) && forall i :: 0 <= i < r.value ==> !At(s, sub, i)
    ensures r.None? ==> !Contains(s, sub)
  {
    IndexFrom(s, sub, 0)
  }

  lemma AtStarts(s: string, sub: string, i: int)
    requires sub != []
    ensures At(s, sub, i) ==> s[i] == sub[0]
  {}

  lemma IndexIs(s: string, sub: string, i: nat)
    requires At(s, sub, i) && forall j :: 0 <= j < i ==> !At(s, sub, j)
    ensures Index(s, sub) == Some(i)
  {}

  /** strings.LastIndexByte. */
  function LastByte(s: string, c: char): (r: Option<nat>)
    ensures r.Some? ==> r.value < |s| && s[r.value] == c && c !in s[r.value + 1..]
    ensures r.None? ==> c !in s
  {
    if s == [] then None
    else if s[|s| - 1] == c then Some(|s| - 1)
    else
      var r := LastByte(s[..|s| - 1], c);
      assert r.Some? ==> s[r.value + 1..] == s[..|s| - 1][r.value + 1..] + [s[|s| - 1]];
      r
  }

  /** The position of the first such byte, or the length. */
  function FirstByte(s: string, c: char): (r: nat)
    ensures r <= |s| && c !in s[..r] && (r < |s| ==> s[r] == c)
  {
    if s == [] || s[0] == c then 0
    else
      var r := FirstByte(s[1..], c);
      assert s[..r + 1] == [s[0]] + s[1..][..r];
      r + 1
  }

  lemma {:induction false} FirstByteIs(a: string, c: char, b: string)
    requires c !in a
    ensures FirstByte(a + [c] + b, c) == |a|
    decreases |a|
  {
    if a != [] {
      FirstByteIs(a[1..], c, b);
      assert (a + [c] + b)[1..] == a[1..] + [c] + b;
    }
  }

  // ----- white space -----

  /** The length of the white-space character at the front, if there is one (unicode.IsSpace, in UTF-8). */
  function SpaceLength(s: string): (n: nat)
    ensures n <= |s|
  {
    if s == [] then 0
    else if s[0] in "\t\n\r " || s[0] == '\U{b}' || s[0] == '\U{c}' then 1
    else if |s| >= 2 && s[0] == '\U{c2}' && (s[1] == '\U{85}' || s[1] == '\U{a0}') then 2
    else if |s| >= 3 && s[0] == '\U{e1}' && s[1] == '\U{9a}' && s[2] == '\U{80}' then 3
    else if |s| >= 3 && s[0] == '\U{e2}' && s[1] == '\U{80}'
         && ('\U{80}' <= s[2] <= '\U{8a}' || s[2] == '\U{a8}' || s[2] == '\U{a9}' || s[2] == '\U{af}') then 3
    else if |s| >= 3 && s[0] == '\U{e2}' && s[1] == '\U{81}' && s[2] == '\U{9f}' then 3
    else if |s| >= 3 && s[0] == '\U{e3}' && s[1] == '\U{80}' && s[2] == '\U{80}' then 3
    else 0
  }

  /** Nothing but white space: strings.TrimSpace leaves nothing. */
  predicate Blank(s: string)
    decreases |s|
  {
    s == [] || (SpaceLength(s) > 0 && Blank(s[SpaceLength(s)..]))
  }

  /** A blank text holds no ASCII byte above the space. */
  lemma {:induction false} BlankBytes(s: string, i: nat)
    requires Blank(s) && i < |s|
    ensures s[i] <= ' ' || s[i] >= '\U{80}'
    decreases |s|
  {
    var n := SpaceLength(s);
    if i >= n {
      BlankBytes(s[n..], i - n);
    }
  }

  /** strings.Fields: the maximal runs without white space. */
  function Fields(s: string): (r: seq<string>)
    decreases |s|
  {
    if s == [] then []
    else if SpaceLength(s) > 0 then Fields(s[SpaceLength(s)..])
    else
      var n := FieldLength(s);
      [s[..n]] + Fields(s[n..])
  }

  function FieldLength(s: string): (n: nat)
    ensures n <= |s|
    ensures s != [] && SpaceLength(s) == 0 ==> n > 0
    decreases |s|
  {
    if s == [] || SpaceLength(s) > 0 then 0 else 1 + FieldLength(s[1..])
  }

  /** strings.TrimRight(s, "\r"). */
  function TrimReturns(s: string): (r: string)
    ensures r <= s
  {
    if s != [] && s[|s| - 1] == '\r' then TrimReturns(s[..|s| - 1]) else s
  }

  // ----- numbers -----

  predicate AllDigits(s: string) {
    s != [] && forall k :: 0 <= k < |s| ==> IsDigit(s[k])
  }

  function Value(s: string): nat {
    ScanDigits(0, s).value
  }

  /** strconv.Atoi. */
  function Atoi(s: string): (r: Option<int>)
    ensures r.Some? ==> -MAX_INT - 1 <= r.value <= MAX_INT
  {
    var signed := s != [] && (s[0] == '+' || s[0] == '-');
    var body := if signed then s[1..] else s;
    if !AllDigits(body) then None
    else if signed && s[0] == '-' then (if Value(body) <= MAX_INT + 1 then Some(0 - Value(body) as int) else None)
    else if Value(body) <= MAX_INT then Some(Value(body))
    else None
  }

  /** A number of a report: a decimal number that is not negative. */
  function Count(s: string): (r: Option<nat>)
    ensures r.Some? ==> r.value <= MAX_INT
  {
    match Atoi(s)
    case Some(v) => if v >= 0 then Some(v) else None
    case None => None
  }

  lemma AtoiOfItoa(n: nat)
    requires n <= MAX_INT
    ensures Atoi(Itoa(n)) == Some(n)
  {
    ScanDigitsOfDigits(n, "");
    assert Digits(n) + "" == Digits(n);
    assert IsDigit(Digits(n)[0]);
  }

  /** A number is spelled in digits and a sign. */
  lemma AtoiBytes(s: string)
    requires Atoi(s).Some?
    ensures forall k :: 0 <= k < |s| ==> IsDigit(s[k]) || s[k] == '+' || s[k] == '-'
  {
    if s[0] == '+' || s[0] == '-' {
      forall k | 0 < k < |s|
        ensures IsDigit(s[k])
      {
        assert s[k] == s[1..][k - 1];
      }
    }
  }

  // ----- the order of Go strings -----

  predicate Before(a: string, b: string) {
    b != [] && (a == [] || a[0] < b[0] || (a[0] == b[0] && Before(a[1..], b[1..])))
  }

  lemma {:induction false} BeforeIsTotal(a: string, b: string)
    ensures Before(a, b) || Before(b, a) || a == b
    ensures !(Before(a, b) && Before(b, a)) && !Before(a, a)
    decreases |a|
  {
    if a != [] {
      BeforeIsTotal(a[1..], if b == [] then a[1..] else b[1..]);
      BeforeIsTotal(a[1..], a[1..]);
      if b != [] && a[0] == b[0] && a[1..] == b[1..] {
        assert a == [a[0]] + a[1..] && b == [b[0]] + b[1..];
      }
    }
  }

  lemma {:induction false} BeforeIsTransitive(a: string, b: string, c: string)
    requires Before(a, b) && Before(b, c)
    ensures Before(a, c)
    decreases |a|
  {
    if a != [] && a[0] == b[0] == c[0] {
      BeforeIsTransitive(a[1..], b[1..], c[1..]);
    }
  }
}

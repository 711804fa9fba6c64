/** UTF-8: validity, repair and cuts. A Go string is a Dafny string with one character a byte, each below 256. */
module Utf8 {
  /** A byte that continues a multi-byte sequence. */
  predicate Continues(c: char) {
    0x80 <= c as int <= 0xBF
  }

  /**
   The length of the well-formed sequence at the start of `s`, or 0 when there is none
   (table 3-7 of the Unicode Standard, which utf8.Valid follows).
   */
  function SequenceLength(s: string): (n: nat)
    ensures n <= |s| && n <= 4
  {
    if s == [] then 0 else
    var b := s[0] as int;
    if b < 0x80 then 1
    else if 0xC2 <= b <= 0xDF && |s| >= 2 && Continues(s[1]) then 2
    else if |s| >= 3 && ThreeBytes(b, s[1] as int) && Continues(s[2]) then 3
    else if |s| >= 4 && FourBytes(b, s[1] as int) && Continues(s[2]) && Continues(s[3]) then 4
    else 0
  }

  predicate ThreeBytes(b: int, next: int) {
    || (b == 0xE0 && 0xA0 <= next <= 0xBF)
    || (b == 0xED && 0x80 <= next <= 0x9F)
    || (0xE1 <= b <= 0xEF && b != 0xED && 0x80 <= next <= 0xBF)
  }

  predicate FourBytes(b: int, next: int) {
    || (b == 0xF0 && 0x90 <= next <= 0xBF)
    || (b == 0xF4 && 0x80 <= next <= 0x8F)
    || (0xF1 <= b <= 0xF3 && 0x80 <= next <= 0xBF)
  }

  /** utf8.Valid. A character above 0xFF stands for no byte, and is refused. */
  predicate Valid(s: string) {
    s == [] || (var n := SequenceLength(s); n > 0 && Valid(s[n..]))
  }

  predicate Ascii(s: string) {
    forall k :: 0 <= k < |s| ==> s[k] as int < 0x80
  }

  lemma {:induction false} AsciiIsValid(s: string)
    requires Ascii(s)
    ensures Valid(s)
    decreases |s|
  {
    if s != [] {
      AsciiIsValid(s[1..]);
    }
  }

  lemma SequenceLengthOfPrefix(a: string, b: string)
    requires SequenceLength(a) > 0
    ensures SequenceLength(a + b) == SequenceLength(a)
  {
    var ab := a + b;
    assert forall k :: 0 <= k < |a| ==> ab[k] == a[k];
  }

  /** Validity of a concatenation whose first part is valid is validity of the second part. */
  lemma {:induction false} ValidConcat(a: string, b: string)
    requires Valid(a)
    ensures Valid(a + b) <==> Valid(b)
    decreases |a|
  {
    if a == [] {
      assert a + b == b;
    } else {
      var n := SequenceLength(a);
      SequenceLengthOfPrefix(a, b);
      assert (a + b)[n..] == a[n..] + b;
      ValidConcat(a[n..], b);
    }
  }

  /** Cutting drops trailing bytes until the rest is valid. */
  function TrimToValid(s: string): (r: string)
    ensures r <= s && Valid(r)
    ensures Valid(s) ==> r == s
    decreases |s|
  {
    if Valid(s) then s else TrimToValid(s[..|s| - 1])
  }

  /** The longest valid prefix of at most `limit` bytes: what a display value keeps. */
  function Cut(s: string, limit: nat): (r: string)
    ensures r <= s && |r| <= limit
    ensures |s| <= limit ==> r == s
    ensures Valid(s) ==> Valid(r)
  {
    if |s| <= limit then s else TrimToValid(s[..limit])
  }

  /** No valid prefix within the limit is longer than the cut. */
  lemma {:induction false} CutIsLongest(s: string, limit: nat, p: string)
    requires Valid(p) && p <= s && |p| <= limit
    ensures |p| <= |Cut(s, limit)|
  {
    if |s| > limit {
      assert p <= s[..limit];
      TrimIsLongest(s[..limit], p);
    }
  }

  lemma {:induction false} TrimIsLongest(s: string, p: string)
    requires Valid(p) && p <= s
    ensures |p| <= |TrimToValid(s)|
    decreases |s|
  {
    if !Valid(s) {
      assert p != s;
      assert p <= s[..|s| - 1];
      TrimIsLongest(s[..|s| - 1], p);
    }
  }

  /** An ASCII string is cut at exactly the limit, as a slice of the string. */
  lemma CutAscii(s: string, limit: nat)
    requires Ascii(s)
    ensures Cut(s, limit) == s[..if |s| <= limit then |s| else limit]
  {
    if |s| > limit {
      AsciiIsValid(s[..limit]);
    }
  }

  // ----- the repair of invalid text -----

  const REPLACEMENT := ['\U{ef}', '\U{bf}', '\U{bd}']

  /** The text with one replacement character for every run of bytes that belong to no sequence. */
  function Repaired(s: string, broken: bool): string
    decreases |s|
  {
    if s == [] then []
    else
      var n := SequenceLength(s);
      if n > 0 then s[..n] + Repaired(s[n..], false)
      else (if broken then [] else REPLACEMENT) + Repaired(s[1..], true)
  }

  /** strings.ToValidUTF8. */
  function Repair(s: string): string {
    Repaired(s, false)
  }

  lemma SequenceIsValid(s: string)
    requires SequenceLength(s) > 0
    ensures Valid(s[..SequenceLength(s)])
  {
    var n := SequenceLength(s);
    assert SequenceLength(s[..n]) == n && s[..n][n..] == [];
  }

  /** A repaired text is valid, and valid text is left as it is. */
  lemma {:induction false} RepairedIsValid(s: string, broken: bool)
    ensures Valid(Repaired(s, broken)) && (Valid(s) ==> Repaired(s, broken) == s)
    decreases |s|
  {
    if s != [] {
      var n := SequenceLength(s);
      if n > 0 {
        RepairedIsValid(s[n..], false);
        AfterSequence(s, Repaired(s[n..], false));
      } else {
        RepairedIsValid(s[1..], true);
        ReplacementIsValid();
        hide Valid;
        ValidConcat(if broken then [] else REPLACEMENT, Repaired(s[1..], true));
      }
    }
  }

  lemma AfterSequence(s: string, rest: string)
    requires SequenceLength(s) > 0 && Valid(rest)
    ensures Valid(s[..SequenceLength(s)] + rest)
    ensures s == s[..SequenceLength(s)] + s[SequenceLength(s)..]
  {
    hide Valid;
    SequenceIsValid(s);
    ValidConcat(s[..SequenceLength(s)], rest);
  }

  lemma ReplacementIsValid()
    ensures Valid(REPLACEMENT) && Valid([])
  {
    assert SequenceLength(REPLACEMENT) == 3 && REPLACEMENT[3..] == [];
  }

  lemma RepairOfValid(s: string)
    ensures Valid(Repair(s)) && (Valid(s) ==> Repair(s) == s)
  {
    RepairedIsValid(s, false);
  }

  // ----- where a cut falls -----

  /** A prefix of valid text is valid exactly where no byte continues it. */
  lemma {:induction false} ValidPrefix(s: string, k: nat)
    requires Valid(s) && k < |s|
    ensures Valid(s[..k]) <==> !Continues(s[k])
    decreases |s|
  {
    var n := SequenceLength(s);
    if 0 < k < n {
      assert forall j :: 0 <= j < k ==> s[..k][j] == s[j];
    } else if k >= n {
      ValidPrefix(s[n..], k - n);
      SequenceIsValid(s);
      assert s[..k] == s[..n] + s[n..][..k - n];
      ValidConcat(s[..n], s[n..][..k - n]);
    }
  }

  /** The last character boundary of the text within the limit: every byte after it, up to the limit, continues. */
  predicate LastBoundary(s: string, k: nat, limit: nat) {
    k <= limit < |s| && !Continues(s[k]) && forall j :: k < j <= limit ==> Continues(s[j])
  }

  /** The cut of valid text that is too long falls on its last boundary within the limit. */
  lemma CutAtBoundary(s: string, limit: nat, k: nat)
    requires Valid(s) && limit < |s|
    ensures LastBoundary(s, k, limit) <==> k <= limit && Cut(s, limit) == s[..k]
  {
    hide Valid;
    var r := |Cut(s, limit)|;
    assert Cut(s, limit) == s[..r];
    ValidPrefix(s, r);
    forall j | r < j <= limit
      ensures Continues(s[j])
    {
      ValidPrefix(s, j);
      if Valid(s[..j]) {
        CutIsLongest(s, limit, s[..j]);
      }
    }
    if k <= limit && Cut(s, limit) == s[..k] {
      assert |s[..k]| == k;
    }
  }

  lemma {:induction false} FourContinuations(s: string, k: nat)
    requires Valid(s) && k + 4 <= |s|
    ensures exists j :: k <= j < k + 4 && !Continues(s[j])
    decreases |s|
  {
    var n := SequenceLength(s);
    if k == 0 {
      assert !Continues(s[0]);
    } else if k < n {
      if n < |s| {
        assert !Continues(s[n..][0]);
        assert !Continues(s[n]);
      }
    } else {
      FourContinuations(s[n..], k - n);
      var j :| k - n <= j < k - n + 4 && !Continues(s[n..][j]);
      assert !Continues(s[j + n]);
    }
  }

  /** That boundary is at most three bytes before the limit, and at the limit in ASCII text. */
  lemma BoundaryNear(s: string, k: nat, limit: nat)
    requires Valid(s) && LastBoundary(s, k, limit)
    ensures limit <= k + 3
    ensures Ascii(s) ==> k == limit
  {
    hide Valid;
    if k + 4 <= limit {
      FourContinuations(s, k + 1);
    }
    assert Ascii(s) ==> !Continues(s[limit]);
  }
}

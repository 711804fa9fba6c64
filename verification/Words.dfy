/** Whole words: a search, and a set. */
module Words {
  import opened Json
  import opened Text

  const MAX_IDENTIFIER: nat := 128

  predicate WordByte(c: char) {
    c == '_' || c == '$' || 'a' <= c <= 'z' || 'A' <= c <= 'Z' || '0' <= c <= '9'
  }

  predicate IsIdentifier(s: string) {
    1 <= |s| <= MAX_IDENTIFIER && !IsDigit(s[0]) && forall k :: 0 <= k < |s| ==> WordByte(s[k])
  }

  /** No word byte on either side. */
  predicate Bounded(text: string, i: int, j: int) {
    0 <= i <= j <= |text| && (i == 0 || !WordByte(text[i - 1])) && (j == |text| || !WordByte(text[j]))
  }

  /** The symbol occurs in the text as a whole word. */
  ghost predicate Named(text: string, symbol: string) {
    symbol != [] && exists i :: At(text, symbol, i) && Bounded(text, i, i + |symbol|)
  }

  /** A maximal run of word bytes. */
  predicate Run(text: string, i: int, j: int) {
    Bounded(text, i, j) && i < j && forall k :: i <= k < j ==> WordByte(text[k])
  }

  ghost predicate HasRun(text: string, w: string, upto: int) {
    exists i, j :: Run(text, i, j) && j <= upto && text[i..j] == w
  }

  /** strings.Index from a position on. */
  function IndexAfter(text: string, from: nat, sub: string): (r: Option<nat>)
    requires from <= |text|
    ensures r.Some? ==> from <= r.value && At(text, sub, r.value) && forall i :: from <= i < r.value ==> !At(text, sub, i)
    ensures r.None? ==> forall i :: from <= i ==> !At(text, sub, i)
  {
    IndexFrom(text, sub, from)
  }

  /** NamedOn: the leftmost occurrence, or the search starts again one byte after it. */
  method NamedOn(text: string, symbol: string) returns (r: bool)
    ensures r <==> Named(text, symbol)
  {
    if symbol == "" {
      return false;
    }
    var from := 0;
    while from < |text|
      invariant 0 <= from <= |text|
      invariant forall i :: 0 <= i < from && At(text, symbol, i) ==> !Bounded(text, i, i + |symbol|)
      decreases |text| - from
    {
      var found := IndexAfter(text, from, symbol);
      if found.None? {
        return false;
      }
      var i := found.value;
      var end := i + |symbol|;
      if (i == 0 || !WordByte(text[i - 1])) && (end == |text| || !WordByte(text[end])) {
        assert At(text, symbol, i) && Bounded(text, i, end);
        return true;
      }
      from := i + 1;
    }
    return false;
  }

  /** AddWords: one pass over the maximal runs of word bytes. */
  method AddWords(set0: set<string>, text: string) returns (words: set<string>)
    ensures forall w :: w in words <==> w in set0 || (IsIdentifier(w) && HasRun(text, w, |text|))
  {
    hide IsIdentifier, WordByte;
    words := set0;
    var i := 0;
    while i < |text|
      invariant 0 <= i <= |text| && (i == 0 || i == |text| || !WordByte(text[i - 1]) || !WordByte(text[i]))
      invariant forall w :: w in words <==> w in set0 || (IsIdentifier(w) && HasRun(text, w, i))
      decreases |text| - i
    {
      if !WordByte(text[i]) {
        NoRunEnds(text, i);
        i := i + 1;
        continue;
      }
      var j := i + 1;
      while j < |text| && WordByte(text[j])
        invariant i < j <= |text| && forall k :: i <= k < j ==> WordByte(text[k])
      {
        j := j + 1;
      }
      OneRunEnds(text, i, j);
      var w := text[i..j];
      if w !in words && IsIdentifier(w) {
        words := words + {w};
      }
      i := j;
    }
  }

  lemma NotInside(text: string, i: int, j: int, k: nat)
    requires Run(text, i, j) && k < |text| && !WordByte(text[k])
    ensures k < i || j <= k
  {}

  lemma NoRunEnds(text: string, i: nat)
    requires i < |text| && !WordByte(text[i])
    ensures forall w :: HasRun(text, w, i + 1) <==> HasRun(text, w, i)
  {
    forall w | HasRun(text, w, i + 1)
      ensures HasRun(text, w, i)
    {
      var a, b :| Run(text, a, b) && b <= i + 1 && text[a..b] == w;
      NotInside(text, a, b, i);
    }
  }

  lemma OneRunEnds(text: string, i: nat, j: nat)
    requires Run(text, i, j)
    ensures forall w :: HasRun(text, w, j) <==> HasRun(text, w, i) || w == text[i..j]
  {
    forall w | HasRun(text, w, j)
      ensures HasRun(text, w, i) || w == text[i..j]
    {
      var a, b :| Run(text, a, b) && b <= j && text[a..b] == w;
      RunsDisjoint(text, a, b, i, j);
    }
    assert text[i..j] == text[i..j];
  }

  lemma RunsDisjoint(text: string, a: int, b: int, i: int, j: int)
    requires Run(text, a, b) && Run(text, i, j) && b <= j
    ensures b <= i || (a == i && b == j)
  {
    if b < |text| {
      NotInside(text, i, j, b);
    }
    if a > 0 {
      NotInside(text, i, j, a - 1);
    }
    if i > 0 {
      NotInside(text, a, b, i - 1);
    }
  }

  /**
   The fast form refines the simple one: for every text and every identifier, the word set holds
   the identifier exactly when the search finds it as a whole word.
   */
  lemma SetAnswersSearch(text: string, s: string)
    requires IsIdentifier(s)
    ensures Named(text, s) <==> HasRun(text, s, |text|)
  {
    if Named(text, s) {
      var i :| At(text, s, i) && Bounded(text, i, i + |s|);
      forall k | i <= k < i + |s|
        ensures WordByte(text[k])
      {
        assert text[k] == s[k - i];
      }
      assert Run(text, i, i + |s|);
    }
    if HasRun(text, s, |text|) {
      var i, j :| Run(text, i, j) && j <= |text| && text[i..j] == s;
      assert At(text, s, i);
    }
  }
}

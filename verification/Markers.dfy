/** Removing marked blocks from a text, pass after pass, until none is left: what stays, and that nothing more goes. */
module Markers {
  import opened Json
  import opened Text

  const BEGIN := "<!-- probe:pr-comment:begin v1 -->"
  const END := "<!-- probe:pr-comment:end -->"
  const MAX_PASSES: nat := 8

  ghost predicate Marked(text: string) {
    Contains(text, BEGIN) || Contains(text, END)
  }

  predicate HasMarker(text: string)
    ensures HasMarker(text) <==> Marked(text)
  {
    Index(text, BEGIN).Some? || Index(text, END).Some?
  }

  /** firstPRMarker. */
  function FirstMarker(text: string): (r: nat)
    requires HasMarker(text)
    ensures r < |text| && (At(text, BEGIN, r) || At(text, END, r))
    ensures forall i :: 0 <= i < r ==> !At(text, BEGIN, i) && !At(text, END, i)
  {
    var i, j := Index(text, BEGIN), Index(text, END);
    if i.None? || (j.Some? && j.value < i.value) then j.value else i.value
  }

  /** The text outside the begin..end blocks; an unterminated block takes the rest. */
  function Outside(text: string): (r: string)
    ensures |r| <= |text| && (Index(text, BEGIN).Some? ==> |r| < |text|) && (Index(text, BEGIN).None? ==> r == text)
    decreases |text|
  {
    match Index(text, BEGIN)
    case None => text
    case Some(i) => text[..i] + AfterBlock(text[i + |BEGIN|..])
  }

  function AfterBlock(after: string): (r: string)
    ensures |r| <= |after|
    decreases |after|
  {
    match Index(after, END)
    case None => ""
    case Some(j) => Outside(after[j + |END|..])
  }

  /** strings.ReplaceAll(text, END, ""). */
  function WithoutEnds(text: string): (r: string)
    ensures |r| <= |text| && (Index(text, END).Some? ==> |r| < |text|)
    decreases |text|
  {
    match Index(text, END)
    case None => text
    case Some(i) => text[..i] + WithoutEnds(text[i + |END|..])
  }

  /** One removal pass. */
  function Once(text: string): string {
    WithoutEnds(Outside(text))
  }

  method StripOnce(text: string) returns (r: string)
    ensures r == Once(text)
  {
    hide WithoutEnds, Index, IndexFrom, BEGIN, END;
    var b, rest := "", text;
    while true
      invariant b + Outside(rest) == Outside(text)
      decreases |rest|
    {
      OutsideStep(b, rest);
      var i := Index(rest, BEGIN);
      if i.None? {
        break;
      }
      b := b + rest[..i.value];
      var after := rest[i.value + |BEGIN|..];
      var j := Index(after, END);
      if j.None? {
        rest := "";
        break;
      }
      rest := after[j.value + |END|..];
    }
    b := b + rest;
    r := WithoutEnds(b);
  }

  lemma OutsideStep(b: string, rest: string)
    ensures Index(rest, BEGIN).Some? ==>
              var i := Index(rest, BEGIN).value;
              var after := rest[i + |BEGIN|..];
              && |after| < |rest|
              && b + Outside(rest) == b + rest[..i] + AfterBlock(after)
              && (Index(after, END).None? ==> AfterBlock(after) == "")
              && (Index(after, END).Some? ==> AfterBlock(after) == Outside(after[Index(after, END).value + |END|..]))
    ensures Index(rest, BEGIN).None? ==> Outside(rest) == rest
  {
    hide Index, IndexFrom, END;
  }

  /** The text after so many passes more, and what is left of it at the last. */
  function Passes(text: string, left: nat): string
    decreases left
  {
    if !HasMarker(text) then text
    else if left == 0 then text[..FirstMarker(text)]
    else Passes(Once(text), left - 1)
  }

  method StripPRComments(text: string) returns (r: string, removed: bool)
    ensures r == Passes(text, MAX_PASSES) && (removed <==> Marked(text))
  {
    r, removed := text, false;
    var pass := 0;
    while HasMarker(r)
      invariant 0 <= pass <= MAX_PASSES
      invariant Passes(r, MAX_PASSES - pass) == Passes(text, MAX_PASSES)
      invariant removed || r == text
      invariant removed ==> Marked(text)
      decreases MAX_PASSES - pass
    {
      removed := true;
      if pass == MAX_PASSES {
        return r[..FirstMarker(r)], true;
      }
      r := StripOnce(r);
      pass := pass + 1;
    }
  }

  /** A pass strictly shortens a text that holds a marker, even one its removal joins into a new marker. */
  lemma OnceShortens(text: string)
    requires Marked(text)
    ensures |Once(text)| < |text|
  {
    assert HasMarker(text);
  }

  /** As many passes as the text has bytes reach the result of any larger limit: the limit cuts nothing then. */
  lemma {:induction false} LimitInvisible(text: string, n: nat, more: nat)
    requires |text| <= n <= more
    ensures Passes(text, n) == Passes(text, more)
    decreases n
  {
    hide Once, FirstMarker;
    if HasMarker(text) {
      OnceShortens(text);
      LimitInvisible(Once(text), n - 1, more - 1);
    }
  }

  lemma CutIsClean(text: string)
    requires HasMarker(text)
    ensures !Marked(text[..FirstMarker(text)])
  {
    var n := FirstMarker(text);
    var cut := text[..n];
    forall i, m | (m == BEGIN || m == END) && At(cut, m, i)
      ensures At(text, m, i) && i < n
    {
      assert text[i..i + |m|] == cut[i..i + |m|];
    }
  }

  /** However many passes are left, the result holds no marker: the pass limit included. */
  lemma {:induction false} PassesClean(text: string, left: nat)
    ensures !Marked(Passes(text, left))
    decreases left
  {
    hide Once, BEGIN, END, FirstMarker, Contains;
    if HasMarker(text) {
      if left == 0 {
        CutIsClean(text);
      } else {
        PassesClean(Once(text), left - 1);
      }
    }
  }

  /** Removal is a fixpoint: of its own result it removes nothing. */
  lemma StripIsFixpoint(text: string)
    ensures !Marked(Passes(text, MAX_PASSES))
    ensures Passes(Passes(text, MAX_PASSES), MAX_PASSES) == Passes(text, MAX_PASSES)
    ensures Passes(text, MAX_PASSES) == text <==> !Marked(text)
  {
    hide HasMarker, Once;
    PassesClean(text, MAX_PASSES);
    assert HasMarker(text) <==> Marked(text);
  }

  // ----- nothing is added -----

  /** a is what is left of b after some bytes are removed. */
  predicate Within(a: string, b: string)
    decreases |b|
  {
    a == [] || (b != [] && ((a[0] == b[0] && Within(a[1..], b[1..])) || Within(a, b[1..])))
  }

  lemma {:induction false} WithinSelf(a: string)
    ensures Within(a, a)
  {
    if a != [] {
      WithinSelf(a[1..]);
    }
  }

  lemma {:induction false} WithinConcat(a: string, b: string, c: string, d: string)
    requires Within(a, b) && Within(c, d)
    ensures Within(a + c, b + d)
    decreases |b|
  {
    if b == [] {
      assert a + c == c && b + d == d;
    } else {
      assert (b + d)[1..] == b[1..] + d;
      if a == [] {
        assert a + c == c;
        WithinConcat([], b[1..], c, d);
        assert [] + c == c;
      } else if a[0] == b[0] && Within(a[1..], b[1..]) {
        WithinConcat(a[1..], b[1..], c, d);
        assert (a + c)[1..] == a[1..] + c;
      } else {
        WithinConcat(a, b[1..], c, d);
      }
    }
  }

  lemma {:induction false} WithinTrans(a: string, b: string, c: string)
    requires Within(a, b) && Within(b, c)
    ensures Within(a, c)
    decreases |b| + |c|
  {
    if a != [] {
      if b[0] == c[0] && Within(b[1..], c[1..]) {
        if a[0] == b[0] && Within(a[1..], b[1..]) {
          WithinTrans(a[1..], b[1..], c[1..]);
        } else {
          WithinTrans(a, b[1..], c[1..]);
        }
      } else {
        WithinTrans(a, b, c[1..]);
      }
    }
  }

  /** Dropping a piece of the text between two others. */
  lemma WithinGap(a: string, rest: string, text: string, gap: nat)
    requires |a| + gap <= |text| && text[..|a|] == a && Within(rest, text[|a| + gap..])
    ensures Within(a + rest, text)
  {
    WithinSelf(a);
    WithinConcat([], text[|a|..|a| + gap], rest, text[|a| + gap..]);
    assert [] + rest == rest;
    assert text[|a|..] == text[|a|..|a| + gap] + text[|a| + gap..];
    WithinConcat(a, text[..|a|], rest, text[|a|..]);
    assert text == text[..|a|] + text[|a|..];
  }

  lemma {:induction false} OutsideWithin(text: string)
    ensures Within(Outside(text), text)
    decreases |text|
  {
    hide Within, Outside, AfterBlock, Index, IndexFrom, END;
    OutsideStep("", text);
    var i := Index(text, BEGIN);
    if i.None? {
      WithinSelf(text);
    } else {
      var after := text[i.value + |BEGIN|..];
      var j := Index(after, END);
      if j.Some? {
        var tail := after[j.value + |END|..];
        OutsideWithin(tail);
        BlockWithin(text, i.value, |BEGIN| + j.value + |END|, Outside(tail));
      } else {
        BlockWithin(text, i.value, |text| - i.value, "");
      }
      assert "" + Outside(text) == Outside(text) && "" + text[..i.value] == text[..i.value];
    }
  }

  lemma BlockWithin(text: string, i: nat, gap: nat, rest: string)
    requires i + gap <= |text| && (rest == "" || Within(rest, text[i + gap..]))
    ensures Within(text[..i] + rest, text)
  {
    hide Within;
    NothingWithin(text[i + gap..]);
    WithinGap(text[..i], rest, text, gap);
  }

  lemma {:induction false} WithoutEndsWithin(text: string)
    ensures Within(WithoutEnds(text), text)
    decreases |text|
  {
    var i := Index(text, END);
    if i.None? {
      WithinSelf(text);
    } else {
      WithoutEndsWithin(text[i.value + |END|..]);
      WithinGap(text[..i.value], WithoutEnds(text[i.value + |END|..]), text, |END|);
    }
  }

  /** The result is what is left of the text after some bytes are removed, in order. */
  lemma {:induction false} PassesWithin(text: string, left: nat)
    ensures Within(Passes(text, left), text)
    decreases left
  {
    hide Once, BEGIN, END, Within;
    if !HasMarker(text) {
      WithinSelf(text);
    } else if left == 0 {
      var n := FirstMarker(text);
      NothingWithin(text[n + (|text| - n)..]);
      WithinGap(text[..n], "", text, |text| - n);
      assert text[..n] + "" == text[..n];
    } else {
      PassesWithin(Once(text), left - 1);
      OnceWithin(text);
      WithinTrans(Passes(Once(text), left - 1), Once(text), text);
    }
  }

  lemma NothingWithin(text: string)
    ensures Within("", text)
  {}

  lemma OnceWithin(text: string)
    ensures Within(Once(text), text)
  {
    OutsideWithin(text);
    WithoutEndsWithin(Outside(text));
    WithinTrans(Once(text), Outside(text), text);
  }
}

/** What each scan of the parser finds in tokens that spell a given text: brackets, types, annotations, expressions. */
module ScriptScans {
  import opened ScriptParse

  // ----- spelled tokens -----

  /** The tokens from i on read as these texts, on whatever lines. */
  predicate Spells(toks: seq<Token>, i: nat, texts: seq<string>) {
    i + |texts| <= |toks| && forall k :: 0 <= k < |texts| ==> toks[i + k].text == texts[k]
  }

  lemma SpellsBoth(toks: seq<Token>, i: nat, a: seq<string>, b: seq<string>)
    ensures Spells(toks, i, a + b) <==> Spells(toks, i, a) && Spells(toks, i + |a|, b)
  {
    if Spells(toks, i, a + b) {
      forall k | 0 <= k < |a|
        ensures toks[i + k].text == a[k]
      {
        assert (a + b)[k] == a[k];
      }
      forall k | 0 <= k < |b|
        ensures toks[i + |a| + k].text == b[k]
      {
        assert (a + b)[|a| + k] == b[k];
      }
    }
  }

  /** Texts joined by spaces. */
  function Joined(texts: seq<string>): string {
    if texts == [] then "" else if |texts| == 1 then texts[0] else texts[0] + " " + Joined(texts[1..])
  }

  lemma {:induction false} JoinSpelled(toks: seq<Token>, i: nat, texts: seq<string>)
    requires Spells(toks, i, texts)
    ensures Join(toks[i..i + |texts|]) == Joined(texts)
    decreases |texts|
  {
    if texts != [] {
      assert toks[i..i + |texts|][1..] == toks[i + 1..i + 1 + |texts[1..]|];
      assert Spells(toks, i + 1, texts[1..]);
      assert toks[i].text == texts[0];
      JoinSpelled(toks, i + 1, texts[1..]);
    }
  }

  // ----- nesting -----

  /** Which tokens nest: brackets, angle brackets, those of a return type, or all of them. */
  datatype Kind = Round | Angle | Typed | Every

  predicate Up(kind: Kind, t: string) {
    match kind
    case Round => t == "{" || t == "(" || t == "["
    case Angle => t == "<"
    case Typed => t == "(" || t == "[" || t == "<"
    case Every => t == "{" || t == "(" || t == "[" || t == "<"
  }

  predicate Down(kind: Kind, t: string) {
    match kind
    case Round => t == "}" || t == ")" || t == "]"
    case Angle => t == ">"
    case Typed => t == ")" || t == "]" || t == ">"
    case Every => t == "}" || t == ")" || t == "]" || t == ">"
  }

  function Change(kind: Kind, t: string): int {
    if Up(kind, t) then 1 else if Down(kind, t) then -1 else 0
  }

  /** How deep the first m texts leave one. */
  function Depth(kind: Kind, texts: seq<string>, m: nat): int
    requires m <= |texts|
  {
    if m == 0 then 0
    else Depth(kind, texts, m - 1) + Change(kind, texts[m - 1])
  }

  /** Every bracket that is opened is closed, and none that is not open. */
  predicate Balanced(kind: Kind, texts: seq<string>) {
    Depth(kind, texts, |texts|) == 0 && forall m :: 0 <= m <= |texts| ==> Depth(kind, texts, m) >= 0
  }

  /** Token k stands on a later line than the token before it. */
  predicate StartsLine(toks: seq<Token>, k: nat) {
    0 < k < |toks| && toks[k - 1].line < toks[k].line
  }

  /** Token k is the first of a later line and may start a statement. */
  predicate Breaks(toks: seq<Token>, k: nat) {
    StartsLine(toks, k) && StartsStatement(toks[k].text)
  }

  /** No line of these texts, which start at token i, starts like a statement, except inside brackets. */
  predicate Unbroken(kind: Kind, toks: seq<Token>, i: nat, texts: seq<string>) {
    forall m :: 0 < m < |texts| && Depth(kind, texts, m) <= 0 ==> !Breaks(toks, i + m)
  }

  // ----- brackets -----

  lemma {:induction false} CloseOver(toks: seq<Token>, i: nat, texts: seq<string>, m: nat, d: int, s: nat)
    requires Spells(toks, i, texts) && Balanced(Round, texts) && m <= |texts| && d >= 1 && s >= |texts|
    ensures MatchClose(toks, i, d, s) == MatchClose(toks, i + m, d + Depth(Round, texts, m), s - m)
  {
    if m > 0 {
      CloseOver(toks, i, texts, m - 1, d, s);
      assert toks[i + (m - 1)].text == texts[m - 1];
      assert Depth(Round, texts, m) >= 0;
    }
  }

  /** A bracketed text is scanned to its closing bracket. */
  lemma CloseSpelled(toks: seq<Token>, i: nat, open: string, texts: seq<string>, close: string, s: nat)
    requires Spells(toks, i, [open] + texts + [close]) && Opens(open) && Closes(close) && Balanced(Round, texts) && s >= |toks|
    ensures MatchClose(toks, i, 0, s).k == i + |texts| + 2
  {
    hide StartsStatement;
    SpellsBoth(toks, i, [open] + texts, [close]);
    SpellsBoth(toks, i, [open], texts);
    assert toks[i + 0].text == [open][0];
    assert toks[i + |texts| + 1 + 0].text == [close][0];
    CloseOver(toks, i + 1, texts, |texts|, 1, s - 1);
  }

  lemma {:induction false} AngleOver(toks: seq<Token>, i: nat, texts: seq<string>, m: nat, d: int, s: nat)
    requires Spells(toks, i, texts) && AngleTexts(texts) && m <= |texts| && d >= 1 && s >= |texts|
    ensures MatchAngle(toks, i, d, s) == MatchAngle(toks, i + m, d + Depth(Angle, texts, m), s - m)
  {
    if m > 0 {
      AngleOver(toks, i, texts, m - 1, d, s);
      assert toks[i + (m - 1)].text == texts[m - 1];
      assert Depth(Angle, texts, m) >= 0;
    }
  }

  /** What may stand between the angle brackets of type parameters: no brace and no semicolon. */
  predicate AngleTexts(texts: seq<string>) {
    Balanced(Angle, texts) && forall m :: 0 <= m < |texts| ==> texts[m] != "{" && texts[m] != ";"
  }

  lemma AngleSpelled(toks: seq<Token>, i: nat, texts: seq<string>, s: nat)
    requires Spells(toks, i, ["<"] + texts + [">"]) && AngleTexts(texts) && s >= |toks|
    ensures MatchAngle(toks, i, 0, s).k == i + |texts| + 2
  {
    SpellsBoth(toks, i, ["<"] + texts, [">"]);
    SpellsBoth(toks, i, ["<"], texts);
    assert toks[i + 0].text == ["<"][0];
    assert toks[i + |texts| + 1 + 0].text == [">"][0];
    AngleOver(toks, i + 1, texts, |texts|, 1, s - 1);
  }

  // ----- types -----

  /** What a return type may read after a leading object type: no semicolon, and no brace outside brackets. */
  predicate TypeTexts(texts: seq<string>) {
    && Depth(Typed, texts, |texts|) <= 0
    && forall m :: 0 <= m < |texts| ==> texts[m] != ";" && (texts[m] == "{" ==> Depth(Typed, texts, m) > 0)
  }

  lemma TypeStep(toks: seq<Token>, k: nat, d: int, s: nat)
    requires k < |toks| && s > 0 && toks[k].text != ";" && (toks[k].text == "{" ==> d > 0)
    ensures TypeEnd(toks, k, d, s) == TypeEnd(toks, k + 1, d + Change(Typed, toks[k].text), s - 1)
  {}

  lemma {:induction false} TypeOver(toks: seq<Token>, i: nat, texts: seq<string>, m: nat, s: nat)
    requires Spells(toks, i, texts) && TypeTexts(texts) && m <= |texts| && s >= |texts|
    ensures TypeEnd(toks, i, 0, s) == TypeEnd(toks, i + m, Depth(Typed, texts, m), s - m)
  {
    if m > 0 {
      hide TypeEnd, Change;
      TypeOver(toks, i, texts, m - 1, s);
      assert toks[i + (m - 1)].text == texts[m - 1];
      TypeStep(toks, i + (m - 1), Depth(Typed, texts, m - 1), s - (m - 1));
    }
  }

  lemma TypeSpelled(toks: seq<Token>, i: nat, texts: seq<string>, s: nat)
    requires Spells(toks, i, texts) && TypeTexts(texts) && s >= |toks|
    requires At(toks, i + |texts|) == "{" || At(toks, i + |texts|) == ";"
    ensures TypeEnd(toks, i, 0, s).k == i + |texts|
  {
    TypeOver(toks, i, texts, |texts|, s);
  }

  /** What an annotation may read up to its stop token: outside brackets neither it nor a semicolon. */
  predicate AnnotationTexts(texts: seq<string>, stop: string) {
    && Depth(Every, texts, |texts|) <= 0
    && forall m :: 0 <= m < |texts| && Depth(Every, texts, m) <= 0 ==> texts[m] != stop && texts[m] != ";"
  }

  lemma ScanStep(toks: seq<Token>, i: nat, k: nat, d: int, stop: string, s: nat)
    requires i <= k < |toks| && s > 0 && (d <= 0 ==> toks[k].text != stop && toks[k].text != ";" && (k > i ==> !Breaks(toks, k)))
    ensures ScanUntil(toks, i, k, d, stop, s) == ScanUntil(toks, i, k + 1, d + Change(Every, toks[k].text), stop, s - 1)
  {
    hide StartsStatement;
  }

  lemma {:induction false} ScanOver(toks: seq<Token>, i: nat, texts: seq<string>, m: nat, stop: string, s: nat)
    requires Spells(toks, i, texts) && AnnotationTexts(texts, stop) && Unbroken(Every, toks, i, texts) && m <= |texts| && s >= |texts|
    ensures ScanUntil(toks, i, i, 0, stop, s) == ScanUntil(toks, i, i + m, Depth(Every, texts, m), stop, s - m)
  {
    hide ScanUntil, Change, Breaks;
    if m > 0 {
      ScanOver(toks, i, texts, m - 1, stop, s);
      assert toks[i + (m - 1)].text == texts[m - 1];
      ScanStep(toks, i, i + (m - 1), Depth(Every, texts, m - 1), stop, s - (m - 1));
    }
  }

  /** An annotation is scanned to its stop token, or to where a semicolon, a line or the end ends it. */
  lemma ScanSpelled(toks: seq<Token>, i: nat, texts: seq<string>, stop: string, s: nat)
    requires Spells(toks, i, texts) && AnnotationTexts(texts, stop) && Unbroken(Every, toks, i, texts) && s >= |toks|
    requires var k := i + |texts|; k == |toks| || toks[k].text == stop || toks[k].text == ";" || (texts != [] && Breaks(toks, k))
    ensures ScanUntil(toks, i, i, 0, stop, s).k == i + |texts|
  {
    hide StartsStatement;
    ScanOver(toks, i, texts, |texts|, stop, s);
  }

  // ----- the expression body of an arrow function -----

  predicate ExpressionTexts(texts: seq<string>) {
    && texts != [] && texts[0] != "{" && Balanced(Round, texts)
    && forall m :: 0 <= m < |texts| && Depth(Round, texts, m) == 0 ==> texts[m] != ";" && texts[m] != ","
  }

  /** An expression ends before a semicolon, a comma, a closing bracket or a line that starts a statement. */
  predicate EndsExpression(toks: seq<Token>, k: nat) {
    k == |toks| || (k < |toks| && (toks[k].text == ";" || toks[k].text == "," || Closes(toks[k].text) || Breaks(toks, k)))
  }

  lemma ExpressionStep(toks: seq<Token>, fn: ScriptFunction, i: nat, k: nat, d: nat, s: nat)
    requires i <= k < |toks| && s > 0 && d + Change(Round, toks[k].text) >= 0
    requires d == 0 ==> toks[k].text != ";" && toks[k].text != "," && (k > i ==> !Breaks(toks, k))
    ensures ArrowExpression(toks, fn, i, k, d, s) == ArrowExpression(toks, fn, i, k + 1, d + Change(Round, toks[k].text), s - 1)
  {
    hide StartsStatement, ArrowEnd;
  }

  lemma {:induction false} ExpressionOver(toks: seq<Token>, fn: ScriptFunction, i: nat, texts: seq<string>, m: nat, s: nat)
    requires Spells(toks, i, texts) && ExpressionTexts(texts) && Unbroken(Round, toks, i, texts) && m <= |texts| && s >= |texts|
    requires Depth(Round, texts, m) >= 0
    ensures ArrowExpression(toks, fn, i, i, 0, s) == ArrowExpression(toks, fn, i, i + m, Depth(Round, texts, m), s - m)
  {
    hide ArrowExpression, Breaks, Change;
    if m > 0 {
      assert Depth(Round, texts, m - 1) >= 0;
      ExpressionOver(toks, fn, i, texts, m - 1, s);
      assert toks[i + (m - 1)].text == texts[m - 1];
      ExpressionStep(toks, fn, i, i + (m - 1), Depth(Round, texts, m - 1), s - (m - 1));
    }
  }

  lemma ExpressionSpelled(toks: seq<Token>, fn: ScriptFunction, i: nat, texts: seq<string>, s: nat)
    requires Spells(toks, i, texts) && ExpressionTexts(texts) && Unbroken(Round, toks, i, texts)
    requires EndsExpression(toks, i + |texts|) && s > |toks|
    ensures var r := ArrowExpression(toks, fn, i, i, 0, s); var k := i + |texts|;
            r.ok && r.next == k && r.fn == fn.(body := Joined(texts), endLine := toks[k - 1].line)
  {
    hide StartsStatement, Join, Joined, Depth;
    ExpressionOver(toks, fn, i, texts, |texts|, s);
    JoinSpelled(toks, i, texts);
  }
}

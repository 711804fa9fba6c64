/** What the parser reads of one function whose tokens spell it: its head, its body, its flags, and where it ends. */
module ScriptRead {
  import opened Json
  import opened ScriptParse
  import opened ScriptScans
  import opened ScriptItems

  // ----- heads -----

  /** The type parameters, the parenthesized parameters and the result type, each in its place. */
  lemma HeadParts(toks: seq<Token>, i: nat, h: Head)
    requires h.Listed? && Spells(toks, i, HeadTexts(h))
    ensures var p := i + |TypesTexts(h.types)|; var r := p + |h.params| + 2;
            && Spells(toks, i, TypesTexts(h.types)) && Spells(toks, p, ["("] + h.params + [")"]) && Spells(toks, p + 1, h.params)
            && Spells(toks, r, After(":", h.result)) && At(toks, p) == "("
            && i + |HeadTexts(h)| == r + |After(":", h.result)|
  {
    var p := i + |TypesTexts(h.types)|;
    SpellsBoth(toks, i, TypesTexts(h.types) + (["("] + h.params + [")"]), After(":", h.result));
    SpellsBoth(toks, i, TypesTexts(h.types), ["("] + h.params + [")"]);
    SpellsBoth(toks, p, ["("] + h.params, [")"]);
    SpellsBoth(toks, p, ["("], h.params);
    assert toks[p + 0].text == ["("][0];
  }

  /** A return type is scanned to the brace or the semicolon that follows it. */
  lemma ReturnSpelled(toks: seq<Token>, i: nat, r: seq<string>, s: nat)
    requires Spells(toks, i, r) && ReturnTexts(r) && s >= 2 * |toks|
    requires At(toks, i + |r|) == "{" || At(toks, i + |r|) == ";"
    ensures ReturnTypeEnd(toks, i, s).k == i + |r|
  {
    hide Depth, TypeEnd, MatchClose, TypeTexts, Balanced;
    assert toks[i + 0].text == r[0];
    if r[0] == "{" {
      var n :| 2 <= n <= |r| && Leads(r, n);
      assert r == r[..n] + r[n..];
      assert r[..n] == ["{"] + r[1..n - 1] + [r[n - 1]];
      SpellsBoth(toks, i, r[..n], r[n..]);
      CloseSpelled(toks, i, "{", r[1..n - 1], r[n - 1], s);
      TypeSpelled(toks, i + n, r[n..], MatchClose(toks, i, 0, s).steps);
    } else {
      TypeSpelled(toks, i, r, s);
    }
  }

  /** The type parameters of a head, scanned to the opening parenthesis. */
  lemma TypesSpelled(toks: seq<Token>, i: nat, h: Head, s: nat)
    requires h.Listed? && Spells(toks, i, HeadTexts(h)) && (h.types.Some? ==> AngleTexts(h.types.value)) && s >= |toks|
    ensures At(toks, i) == "<" <==> h.types.Some?
    ensures At(toks, i) == "(" <==> h.types.None?
    ensures h.types.Some? ==> MatchAngle(toks, i, 0, s).k == i + |TypesTexts(h.types)|
  {
    hide MatchAngle, HeadTexts, AngleTexts;
    HeadParts(toks, i, h);
    if h.types.Some? {
      AngleSpelled(toks, i, h.types.value, s);
      assert toks[i + 0].text == TypesTexts(h.types)[0];
    }
  }

  /** The parameters of a head, scanned to what follows them. */
  lemma ParamsSpelled(toks: seq<Token>, i: nat, h: Head, s: nat)
    requires h.Listed? && Spells(toks, i, HeadTexts(h)) && Balanced(Round, h.params) && s >= |toks|
    ensures var p := i + |TypesTexts(h.types)|; var close := MatchClose(toks, p, 0, s);
            && At(toks, p) == "(" && close.k == p + |h.params| + 2 <= |toks|
            && Slice(toks, p + 1, close.k - 1) == toks[p + 1..p + 1 + |h.params|]
            && Spells(toks, close.k, After(":", h.result)) && i + |HeadTexts(h)| == close.k + |After(":", h.result)|
  {
    hide MatchClose, HeadTexts, Balanced;
    HeadParts(toks, i, h);
    CloseSpelled(toks, i + |TypesTexts(h.types)|, "(", h.params, ")", s);
  }

  /** A declaration is scanned from its parameters to where its head ends. */
  lemma DeclarationHead(toks: seq<Token>, i: nat, h: Head, fn: ScriptFunction, s: nat) returns (rest: nat)
    requires Spells(toks, i, HeadTexts(h)) && IsDeclarationHead(h) && s >= 4 * |toks|
    requires var end := At(toks, i + |HeadTexts(h)|);
             if h.result.Some? then end == "{" || end == ";" else end != ":"
    ensures rest >= |toks|
    ensures var p := i + |TypesTexts(h.types)|;
            DeclarationParams(toks, fn, i, p, s)
            == DeclarationBody(toks, fn.(params := toks[p + 1..p + 1 + |h.params|]), i, i + |HeadTexts(h)|, rest)
  {
    hide MatchClose, DeclarationBody, ReturnTypeEnd, HeadTexts, AngleTexts, Balanced, ReturnTexts, Slice, TypesTexts;
    ParamsSpelled(toks, i, h, s);
    var p := i + |TypesTexts(h.types)|;
    var close := MatchClose(toks, p, 0, s);
    rest := close.steps;
    if h.result.Some? {
      var r := h.result.value;
      SpellsBoth(toks, close.k, [":"], r);
      assert toks[close.k + 0].text == [":"][0];
      ReturnSpelled(toks, close.k + 1, r, close.steps);
      rest := ReturnTypeEnd(toks, close.k + 1, close.steps).steps;
    }
  }

  // ----- declarations -----

  /** The keyword, the star and the name of a declaration, and where its head starts. */
  lemma LeadSpelled(toks: seq<Token>, i: nat, generator: bool, name: string, h: Head)
    requires NameOrNone(name) && h.Listed?
    requires Spells(toks, i, ["function"] + If(generator, "*") + If(name != "", name) + HeadTexts(h))
    ensures At(toks, i) == "function" && (At(toks, i + 1) == "*" <==> generator)
    ensures var k := if generator then i + 2 else i + 1; IsName(At(toks, k)) == (name != "") && (name != "" ==> At(toks, k) == name)
    ensures Spells(toks, i + 1 + |If(generator, "*")| + |If(name != "", name)|, HeadTexts(h))
  {
    hide HeadTexts, IdentStart;
    var k := i + 1 + |If(generator, "*")|;
    var head := k + |If(name != "", name)|;
    SpellsBoth(toks, i, ["function"] + If(generator, "*") + If(name != "", name), HeadTexts(h));
    SpellsBoth(toks, i, ["function"] + If(generator, "*"), If(name != "", name));
    SpellsBoth(toks, i, ["function"], If(generator, "*"));
    assert toks[i + 0].text == ["function"][0];
    HeadStarts(toks, head, h);
    if generator {
      assert toks[i + 1 + 0].text == ["*"][0];
    }
    if name != "" {
      assert toks[k + 0].text == [name][0];
    }
    NoNames();
  }

  lemma NoNames()
    ensures !IsName("*") && !IsName("(") && !IsName("<") && !IsName("=>") && !IsName("{") && !IsName(",") && !IsName("}") && !IsName(":") && !IsName("=")
    ensures !IsName(";")
  {}

  lemma HeadStarts(toks: seq<Token>, i: nat, h: Head)
    requires h.Listed? && Spells(toks, i, HeadTexts(h))
    ensures At(toks, i) == if h.types.Some? then "<" else "("
  {
    hide HeadTexts;
    HeadParts(toks, i, h);
    if h.types.Some? {
      assert toks[i + 0].text == TypesTexts(h.types)[0];
    }
  }

  lemma BlockSpelled(toks: seq<Token>, fn: ScriptFunction, sigStart: nat, k: nat, body: Body, s: nat)
    requires sigStart <= k && Spells(toks, k, BodyTexts(body)) && body.Block? && IsBody(body) && s >= |toks|
    ensures var r := DeclarationBody(toks, fn, sigStart, k, s); var end := k + |BodyTexts(body)|;
            && r.ok && r.next == end <= |toks|
            && r.fn == fn.(sig := toks[sigStart..k], signature := (if fn.generator then "* " else "") + Join(toks[sigStart..k]),
                           body := Joined(BodyTexts(body)), endLine := toks[end - 1].line)
  {
    hide MatchClose, Join, Joined, Balanced;
    CloseSpelled(toks, k, "{", body.texts, "}", s);
    assert toks[k + 0].text == BodyTexts(body)[0];
    JoinSpelled(toks, k, BodyTexts(body));
  }

  /** The head of a declaration and its flags, and what is left for the body. */
  lemma DeclarationLeads(toks: seq<Token>, i: nat, generator: bool, name: string, h: Head, s: nat) returns (rest: nat)
    requires NameOrNone(name) && IsDeclarationHead(h) && s >= 5 * |toks|
    requires Spells(toks, i, ["function"] + If(generator, "*") + If(name != "", name) + HeadTexts(h))
    requires var end := At(toks, i + 1 + |If(generator, "*")| + |If(name != "", name)| + |HeadTexts(h)|);
             if h.result.Some? then end == "{" || end == ";" else end != ":"
    ensures rest >= |toks|
    ensures var at := i + 1 + |If(generator, "*")| + |If(name != "", name)|; var p := at + ParamsAt(h);
            && p + |h.params| <= |toks|
            && Declaration(toks, i, s)
            == DeclarationBody(toks, NO_FUNCTION.(name := name, typeParams := h.types.Some?, generator := generator, params := toks[p..p + |h.params|]),
                               at, at + |HeadTexts(h)|, rest)
  {
    hide DeclarationParams, DeclarationBody, MatchAngle, HeadTexts, AngleTexts, ReturnTexts, Balanced, IsName, TypesTexts, Spells, Declaration, If, NameOrNone;
    LeadSpelled(toks, i, generator, name, h);
    var at := i + 1 + |If(generator, "*")| + |If(name != "", name)|;
    TypesSpelled(toks, at, h, s);
    ParamsSpelled(toks, at, h, s);
    var angle := if h.types.Some? then MatchAngle(toks, at, 0, s) else Stop(at, s);
    var fn := NO_FUNCTION.(name := name, typeParams := h.types.Some?, generator := generator);
    NoTypes(h);
    StartInside(toks, i, generator, name, h);
    DeclarationUnfolds(toks, i, generator, name, h.types.Some?, s);
    rest := DeclarationHead(toks, at, h, fn, angle.steps);
  }

  lemma StartInside(toks: seq<Token>, i: nat, generator: bool, name: string, h: Head)
    requires Spells(toks, i, ["function"] + If(generator, "*") + If(name != "", name) + HeadTexts(h))
    ensures i < |toks|
  {}

  /** A declaration up to its parameters, when the tokens say whether it has a star, a name and type parameters. */
  lemma DeclarationUnfolds(toks: seq<Token>, i: nat, generator: bool, name: string, typeParams: bool, s: nat)
    requires i < |toks| && (At(toks, i + 1) == "*" <==> generator)
    requires var k := if generator then i + 2 else i + 1;
             IsName(At(toks, k)) == (name != "") && (name != "" ==> At(toks, k) == name)
    requires At(toks, i + 1 + |If(generator, "*")| + |If(name != "", name)|) == "<" <==> typeParams
    ensures var at := i + 1 + |If(generator, "*")| + |If(name != "", name)|;
            var angle := if typeParams then MatchAngle(toks, at, 0, s) else Stop(at, s);
            Declaration(toks, i, s)
            == DeclarationParams(toks, NO_FUNCTION.(name := name, typeParams := typeParams, generator := generator), at, angle.k, angle.steps)
  {
    hide DeclarationParams, MatchAngle, IsName;
  }

  lemma NoTypes(h: Head)
    ensures h.Listed? && h.types.None? ==> |TypesTexts(h.types)| == 0
  {}

  /** What is written of a declaration, from the function keyword on. */
  function DeclarationTexts(generator: bool, name: string, h: Head): seq<string> {
    ["function"] + If(generator, "*") + If(name != "", name) + HeadTexts(h)
  }

  /** A function that starts at token i, as the parser returns it: without its line and doc comment. */
  function Raw(toks: seq<Token>, name: string, generator: bool, at: nat, h: Head, body: Body, end: nat): (fn: ScriptFunction)
    requires at + |HeadTexts(h)| <= |toks| && at + ParamsAt(h) + |ParamTexts(h)| <= |toks| && 0 < end <= |toks|
    ensures fn.name == name
  {
    ScriptFunction(name, 0, toks[end - 1].line, (if generator then "* " else "") + Joined(HeadTexts(h)), Joined(BodyTexts(body)),
                   toks[at..at + |HeadTexts(h)|], toks[at + ParamsAt(h)..at + ParamsAt(h) + |ParamTexts(h)|],
                   h.Bare?, h.Listed? && h.types.Some?, false, generator, "")
  }

  lemma ParamsFit(toks: seq<Token>, i: nat, h: Head)
    requires Spells(toks, i, HeadTexts(h))
    ensures i + ParamsAt(h) + |ParamTexts(h)| <= |toks| && HeadTexts(h) != []
  {
    hide HeadTexts;
    if h.Listed? {
      HeadParts(toks, i, h);
    } else {
      assert HeadTexts(h) == [h.param] by {
        BareTexts(h);
      }
    }
  }

  lemma BareTexts(h: Head)
    requires h.Bare?
    ensures HeadTexts(h) == [h.param]
  {}

  /** A declaration with a body is read as written. */
  lemma DeclarationSpelled(toks: seq<Token>, i: nat, generator: bool, name: string, h: Head, body: Body, s: nat)
    requires DeclarationFits(name, h, body) && s >= 5 * |toks|
    requires Spells(toks, i, DeclarationTexts(generator, name, h) + BodyTexts(body))
    ensures var at := i + 1 + |If(generator, "*")| + |If(name != "", name)|; var end := at + |HeadTexts(h)| + |BodyTexts(body)|;
            Spells(toks, at, HeadTexts(h)) && IsRaw(Declaration(toks, i, s), toks, name, generator, at, h, body, end)
  {
    hide DeclarationBody, Declaration, HeadTexts, IsDeclarationHead, IsBody, IsName, Join, Joined, BodyTexts;
    var at := i + 1 + |If(generator, "*")| + |If(name != "", name)|;
    var k := at + |HeadTexts(h)|;
    SpellsBoth(toks, i, DeclarationTexts(generator, name, h), BodyTexts(body));
    SpellsBoth(toks, i, ["function"] + If(generator, "*") + If(name != "", name), HeadTexts(h));
    IsHead(h);
    BraceFirst(toks, k, body);
    var rest := DeclarationLeads(toks, i, generator, name, h, s);
    var p := at + ParamsAt(h);
    var fn := NO_FUNCTION.(name := name, typeParams := h.types.Some?, generator := generator, params := toks[p..p + |h.params|]);
    BlockSpelled(toks, fn, at, k, body, rest);
    JoinSpelled(toks, at, HeadTexts(h));
    ParamsFit(toks, at, h);
  }

  lemma IsHead(h: Head)
    requires IsDeclarationHead(h)
    ensures h.Listed?
  {}

  lemma BraceFirst(toks: seq<Token>, k: nat, body: Body)
    requires body.Block? && Spells(toks, k, BodyTexts(body))
    ensures At(toks, k) == "{"
  {
    assert toks[k + 0].text == BodyTexts(body)[0];
  }

  /** A declaration without a body is none. */
  lemma OverloadSpelled(toks: seq<Token>, i: nat, generator: bool, name: string, h: Head, s: nat)
    requires NameOrNone(name) && IsDeclarationHead(h) && s >= 5 * |toks|
    requires Spells(toks, i, DeclarationTexts(generator, name, h))
    requires var end := At(toks, i + |DeclarationTexts(generator, name, h)|);
             if h.result.Some? then end == ";" else end != "{" && end != ":"
    ensures !Declaration(toks, i, s).ok
  {
    hide Declaration, HeadTexts, IsDeclarationHead, IsName;
    IsHead(h);
    var rest := DeclarationLeads(toks, i, generator, name, h, s);
  }

  // ----- arrow functions -----

  /** What is written of an arrow function, after its async. */
  function ArrowTexts(h: Head, body: Body): seq<string> {
    HeadTexts(h) + ["=>"] + BodyTexts(body)
  }

  /** The arrow and the body. */
  lemma ArrowBodySpelled(toks: seq<Token>, fn: ScriptFunction, at: nat, k: nat, body: Body, s: nat)
    requires at <= k && Spells(toks, k, ["=>"] + BodyTexts(body)) && IsBody(body) && s > |toks|
    requires body.Expression? ==> Unbroken(Round, toks, k + 1, body.texts) && EndsExpression(toks, k + 1 + |body.texts|)
    ensures var r := ArrowBody(toks, fn, at, k, s); var end := k + 1 + |BodyTexts(body)|;
            && r.ok && r.next == end <= |toks|
            && r.fn == fn.(sig := toks[at..k], signature := Join(toks[at..k]), body := Joined(BodyTexts(body)), endLine := toks[end - 1].line)
  {
    hide MatchClose, ArrowExpression, Join, Joined, Balanced, Unbroken, EndsExpression, ExpressionTexts;
    SpellsBoth(toks, k, ["=>"], BodyTexts(body));
    assert toks[k + 0].text == ["=>"][0];
    var fn' := fn.(sig := toks[at..k], signature := Join(toks[at..k]));
    if body.Block? {
      BraceFirst(toks, k + 1, body);
      CloseSpelled(toks, k + 1, "{", body.texts, "}", s);
      JoinSpelled(toks, k + 1, BodyTexts(body));
    } else {
      NoBrace(body.texts);
      assert toks[k + 1 + 0].text == body.texts[0];
      ExpressionSpelled(toks, fn', k + 1, body.texts, s);
    }
  }

  lemma NoBrace(texts: seq<string>)
    requires ExpressionTexts(texts)
    ensures texts != [] && texts[0] != "{"
  {}

  /** The result type of an arrow function, from token k on, is scanned to the arrow. */
  lemma ResultSpelled(toks: seq<Token>, k: nat, result: Option<seq<string>>, s: nat)
    requires Spells(toks, k, After(":", result)) && AnnotationFits(result, "=>", toks, k + 1)
    requires At(toks, k + |After(":", result)|) == "=>" && s >= |toks|
    ensures At(toks, k) == ":" <==> result.Some?
    ensures result.Some? ==> ScanUntil(toks, k + 1, k + 1, 0, "=>", s).k == k + |After(":", result)|
  {
    hide ScanUntil, AnnotationTexts, Unbroken;
    if result.Some? {
      SpellsBoth(toks, k, [":"], result.value);
      assert toks[k + 0].text == [":"][0];
      ScanSpelled(toks, k + 1, result.value, "=>", s);
    }
  }

  /** The visits left after the head of an arrow function. */
  function ArrowRest(toks: seq<Token>, at: nat, h: Head, s: nat): (rest: nat)
    requires h.Listed?
    ensures s > 3 * |toks| ==> rest > |toks|
  {
    var close := MatchClose(toks, at + |TypesTexts(h.types)|, 0, s);
    if h.result.Some? then ScanUntil(toks, close.k + 1, close.k + 1, 0, "=>", close.steps).steps else close.steps
  }

  lemma ArrowTokens(toks: seq<Token>, at: nat, h: Head, body: Body)
    requires Spells(toks, at, ArrowTexts(h, body))
    ensures var k := at + |HeadTexts(h)|;
            && Spells(toks, at, HeadTexts(h)) && Spells(toks, k, ["=>"] + BodyTexts(body)) && At(toks, k) == "=>"
            && |ArrowTexts(h, body)| == |HeadTexts(h)| + 1 + |BodyTexts(body)|
  {
    hide HeadTexts, BodyTexts;
    var k := at + |HeadTexts(h)|;
    assert HeadTexts(h) + (["=>"] + BodyTexts(body)) == ArrowTexts(h, body);
    SpellsBoth(toks, at, HeadTexts(h), ["=>"] + BodyTexts(body));
    assert toks[k + 0].text == (["=>"] + BodyTexts(body))[0];
  }

  /** The parameters open at p, are n tokens, and what follows them is read from token k on. */
  ghost predicate GoesOn(toks: seq<Token>, fn: ScriptFunction, at: nat, p: nat, n: nat, k: nat, s: nat, rest: nat) {
    && at <= p && p + 1 + n <= |toks| && At(toks, p) == "("
    && ArrowParams(toks, fn, at, p, s) == ArrowBody(toks, fn.(params := toks[p + 1..p + 1 + n]), at, k, rest)
  }

  /** From the parameters on: the return type ends at the arrow. */
  lemma ArrowParamsSpelled(toks: seq<Token>, fn: ScriptFunction, at: nat, h: Head, s: nat)
    requires h.Listed? && Spells(toks, at, HeadTexts(h)) && At(toks, at + |HeadTexts(h)|) == "=>" && IsArrowHead(h) && s > 3 * |toks|
    requires AnnotationFits(h.result, "=>", toks, at + |TypesTexts(h.types)| + |h.params| + 3)
    ensures GoesOn(toks, fn, at, at + |TypesTexts(h.types)|, |h.params|, at + |HeadTexts(h)|, s, ArrowRest(toks, at, h, s))
  {
    hide MatchClose, ScanUntil, ArrowBody, HeadTexts, Balanced, AnnotationFits, TypesTexts, AngleTexts, AnnotationTexts, Slice, Spells;
    ParamsSpelled(toks, at, h, s);
    var close := MatchClose(toks, at + |TypesTexts(h.types)|, 0, s);
    ResultSpelled(toks, close.k, h.result, close.steps);
  }

  /** An arrow function with one bare parameter. */
  lemma BareSpelled(toks: seq<Token>, at: nat, h: Head, body: Body, s: nat)
    requires h.Bare? && Spells(toks, at, ArrowTexts(h, body)) && ArrowFits(h, body, toks, at) && s > 4 * |toks|
    ensures var end := at + |ArrowTexts(h, body)|; Spells(toks, at, HeadTexts(h)) && IsRaw(Arrow(toks, at, s), toks, "", false, at, h, body, end)
  {
    hide ArrowBody, ArrowParams, BodyTexts, IsName, IsBody, Join, Joined, EndsExpression, Unbroken, ArrowTexts;
    ArrowTokens(toks, at, h, body);
    assert toks[at + 0].text == HeadTexts(h)[0];
    NoNames();
    ArrowBodySpelled(toks, NO_FUNCTION.(params := toks[at..at + 1], bare := true), at, at + 1, body, s);
    JoinSpelled(toks, at, HeadTexts(h));
  }

  /** The parser found the function that is written from token `at` on. */
  ghost predicate IsRaw(r: Found, toks: seq<Token>, name: string, generator: bool, at: nat, h: Head, body: Body, end: nat) {
    && at + |HeadTexts(h)| <= |toks| && at + ParamsAt(h) + |ParamTexts(h)| <= |toks| && 0 < end <= |toks|
    && r.ok && r.next == end && r.fn == Raw(toks, name, generator, at, h, body, end)
  }

  /** The head of an arrow function with its parameters in parentheses, and what is left for the body. */
  lemma ListedLeads(toks: seq<Token>, at: nat, h: Head, s: nat) returns (rest: nat)
    requires h.Listed? && Spells(toks, at, HeadTexts(h)) && At(toks, at + |HeadTexts(h)|) == "=>" && IsArrowHead(h) && s > 4 * |toks|
    requires AnnotationFits(h.result, "=>", toks, at + |TypesTexts(h.types)| + |h.params| + 3)
    ensures var p := at + ParamsAt(h);
            && p + |h.params| <= |toks| && rest > |toks|
            && Arrow(toks, at, s)
            == ArrowBody(toks, NO_FUNCTION.(typeParams := h.types.Some?, params := toks[p..p + |h.params|]), at, at + |HeadTexts(h)|, rest)
  {
    hide ArrowBody, ArrowParams, MatchAngle, HeadTexts, IsName, AngleTexts, TypesTexts, ArrowRest, AnnotationFits, Spells, Balanced, AnnotationTexts;
    TypesSpelled(toks, at, h, s);
    NoTypes(h);
    var angle := if h.types.Some? then MatchAngle(toks, at, 0, s) else Stop(at, s);
    ArrowParamsSpelled(toks, NO_FUNCTION.(typeParams := h.types.Some?), at, h, angle.steps);
    rest := ArrowRest(toks, at, h, angle.steps);
  }

  /** An arrow function with its parameters in parentheses. */
  lemma ListedSpelled(toks: seq<Token>, at: nat, h: Head, body: Body, s: nat)
    requires h.Listed? && Spells(toks, at, ArrowTexts(h, body)) && ArrowFits(h, body, toks, at) && s > 4 * |toks|
    ensures var end := at + |ArrowTexts(h, body)|; Spells(toks, at, HeadTexts(h)) && IsRaw(Arrow(toks, at, s), toks, "", false, at, h, body, end)
  {
    hide ArrowBody, Arrow, HeadTexts, BodyTexts, IsArrowHead, IsBody, Join, Joined, TypesTexts, EndsExpression, Unbroken, ArrowTexts, AnnotationFits, Spells;
    ArrowTokens(toks, at, h, body);
    ParamsFit(toks, at, h);
    var rest := ListedLeads(toks, at, h, s);
    var p := at + ParamsAt(h);
    ArrowBodySpelled(toks, NO_FUNCTION.(typeParams := h.types.Some?, params := toks[p..p + |h.params|]), at, at + |HeadTexts(h)|, body, rest);
    JoinSpelled(toks, at, HeadTexts(h));
  }

  /** An arrow function is read as written. */
  lemma ArrowSpelled(toks: seq<Token>, at: nat, h: Head, body: Body, s: nat)
    requires Spells(toks, at, ArrowTexts(h, body)) && ArrowFits(h, body, toks, at) && s > 4 * |toks|
    ensures var end := at + |ArrowTexts(h, body)|; Spells(toks, at, HeadTexts(h)) && IsRaw(Arrow(toks, at, s), toks, "", false, at, h, body, end)
  {
    hide *;
    if h.Bare? {
      BareSpelled(toks, at, h, body, s);
    } else {
      ListedSpelled(toks, at, h, body, s);
    }
  }

  // ----- bindings -----

  /** With its name, and async in front when it is. */
  function Called(fn: ScriptFunction, name: string, async: bool): ScriptFunction {
    if async then fn.(name := name, signature := "async " + fn.signature, async := true) else fn.(name := name)
  }

  function ValueTexts(v: Value): seq<string> {
    if v.FunctionValue? then If(v.async, "async") + (DeclarationTexts(v.generator, v.inner, v.head) + BodyTexts(v.body))
    else If(v.async, "async") + ArrowTexts(v.head, v.body)
  }

  /** The parser found this function, perhaps async, under this name. */
  ghost predicate IsCalled(r: Found, toks: seq<Token>, name: string, async: bool, generator: bool, at: nat, h: Head, body: Body, end: nat) {
    && at + |HeadTexts(h)| <= |toks| && at + ParamsAt(h) + |ParamTexts(h)| <= |toks| && 0 < end <= |toks|
    && r.ok && r.next == end && r.fn == Called(Raw(toks, "", generator, at, h, body, end), name, async)
  }

  ghost predicate ValueFits(v: Value, toks: seq<Token>, k: nat) {
    if v.FunctionValue? then DeclarationFits(v.inner, v.head, v.body) else ArrowFits(v.head, v.body, toks, k + |ValueLead(v)|)
  }

  lemma IfSpelled(toks: seq<Token>, k: nat, present: bool, text: string, rest: seq<string>)
    requires Spells(toks, k, If(present, text) + rest)
    ensures Spells(toks, k + |If(present, text)|, rest) && (present ==> At(toks, k) == text)
  {
    SpellsBoth(toks, k, If(present, text), rest);
    if present {
      assert toks[k + 0].text == If(present, text)[0];
    }
  }

  /** What an arrow function starts with is no function keyword, and no async of its own. */
  lemma ArrowStarts(toks: seq<Token>, at: nat, h: Head, body: Body)
    requires Spells(toks, at, ArrowTexts(h, body)) && IsArrowHead(h)
    ensures At(toks, at) != "function" && !AsyncAt(toks, at)
    ensures At(toks, at) == "(" || At(toks, at) == "<" || (IsName(At(toks, at)) && At(toks, at + 1) == "=>")
  {
    hide HeadTexts, ArrowTexts, IdentStart;
    ArrowTokens(toks, at, h, body);
    NoNames();
    if h.Bare? {
      BareTexts(h);
      assert toks[at + 0].text == HeadTexts(h)[0];
    } else {
      HeadStarts(toks, at, h);
    }
  }

  /** An initializer with a function keyword is that declaration, under the name of the binding. */
  lemma FunctionInitializer(toks: seq<Token>, name: string, k: nat, async: bool, s: nat)
    requires var start := k + |If(async, "async")|; At(toks, start) == "function" && (async ==> At(toks, k) == "async")
    ensures var d := Declaration(toks, k + |If(async, "async")|, s); Initializer(toks, name, k, s) == d.(fn := Called(d.fn, name, async))
  {
    hide Declaration, Arrow, IsName;
  }

  lemma RawIsCalled(d: Found, toks: seq<Token>, inner: string, name: string, async: bool, generator: bool, at: nat, h: Head, body: Body, end: nat)
    requires IsRaw(d, toks, inner, generator, at, h, body, end)
    ensures IsCalled(d.(fn := Called(d.fn, name, async)), toks, name, async, generator, at, h, body, end)
  {
    hide HeadTexts, BodyTexts, ParamTexts, ParamsAt, Joined;
  }

  lemma FunctionValueSpelled(toks: seq<Token>, name: string, k: nat, v: Value, s: nat)
    requires v.FunctionValue? && Spells(toks, k, ValueTexts(v)) && ValueFits(v, toks, k) && s >= 5 * |toks|
    ensures var at := k + |ValueLead(v)|;
            IsCalled(Initializer(toks, name, k, s), toks, name, v.async, v.generator, at, v.head, v.body, k + |ValueTexts(v)|)
  {
    hide Declaration, Initializer, HeadTexts, BodyTexts, DeclarationFits, Spells, IsRaw, IsCalled, ValueTexts, ValueLead, DeclarationTexts, If;
    FunctionValueParts(v);
    var start := k + |If(v.async, "async")|;
    IfSpelled(toks, k, v.async, "async", DeclarationTexts(v.generator, v.inner, v.head) + BodyTexts(v.body));
    DeclarationSpelled(toks, start, v.generator, v.inner, v.head, v.body, s);
    FunctionFirst(toks, start, v.generator, v.inner, v.head, BodyTexts(v.body));
    FunctionInitializer(toks, name, k, v.async, s);
    RawIsCalled(Declaration(toks, start, s), toks, v.inner, name, v.async, v.generator, k + |ValueLead(v)|, v.head, v.body, k + |ValueTexts(v)|);
  }

  lemma FunctionValueParts(v: Value)
    requires v.FunctionValue?
    ensures ValueTexts(v) == If(v.async, "async") + (DeclarationTexts(v.generator, v.inner, v.head) + BodyTexts(v.body))
    ensures |ValueLead(v)| == |If(v.async, "async")| + 1 + |If(v.generator, "*")| + |If(v.inner != "", v.inner)|
    ensures |ValueTexts(v)| == |ValueLead(v)| + |HeadTexts(v.head)| + |BodyTexts(v.body)|
    ensures |If(v.async, "async")| == if v.async then 1 else 0
  {
    hide HeadTexts, BodyTexts;
  }

  lemma FunctionFirst(toks: seq<Token>, i: nat, generator: bool, name: string, h: Head, rest: seq<string>)
    requires Spells(toks, i, DeclarationTexts(generator, name, h) + rest)
    ensures At(toks, i) == "function"
  {
    hide HeadTexts;
    assert toks[i + 0].text == (DeclarationTexts(generator, name, h) + rest)[0];
  }

  lemma ArrowValueSpelled(toks: seq<Token>, name: string, k: nat, v: Value, s: nat)
    requires v.ArrowValue? && Spells(toks, k, ValueTexts(v)) && ValueFits(v, toks, k) && s > 4 * |toks|
    ensures var at := k + |ValueLead(v)|;
            IsCalled(Initializer(toks, name, k, s), toks, name, v.async, false, at, v.head, v.body, k + |ValueTexts(v)|)
  {
    hide Declaration, Arrow, HeadTexts, BodyTexts, IsArrowHead, IsBody, Join, Joined, Spells, ParamTexts, ParamsAt, AnnotationFits, ArrowTexts;
    hide EndsExpression, Unbroken;
    var start := k + |If(v.async, "async")|;
    IfSpelled(toks, k, v.async, "async", ArrowTexts(v.head, v.body));
    ArrowStarts(toks, start, v.head, v.body);
    ArrowSpelled(toks, start, v.head, v.body, s);
  }

  /** The initializer of a binding is read as written. */
  lemma ValueSpelled(toks: seq<Token>, name: string, k: nat, v: Value, s: nat)
    requires Spells(toks, k, ValueTexts(v)) && ValueFits(v, toks, k) && s >= 5 * |toks| && s > 4 * |toks|
    ensures var at := k + |ValueLead(v)|;
            IsCalled(Initializer(toks, name, k, s), toks, name, v.async, v.FunctionValue? && v.generator, at, v.head, v.body, k + |ValueTexts(v)|)
  {
    hide *;
    if v.FunctionValue? {
      FunctionValueSpelled(toks, name, k, v, s);
    } else {
      ArrowValueSpelled(toks, name, k, v, s);
    }
  }

  /** The keyword, the name and the annotation of a binding, scanned to what follows them. */
  lemma BindingLeads(toks: seq<Token>, i: nat, keyword: string, name: string, annotation: Option<seq<string>>, s: nat)
    requires Spells(toks, i, BindingLead(false, keyword, name, annotation)) && IsName(name) && s >= |toks|
    requires AnnotationFits(annotation, "=", toks, i + 3)
    requires var k := i + |BindingLead(false, keyword, name, annotation)|;
             if annotation.Some? then k == |toks| || At(toks, k) == "=" || At(toks, k) == ";" || (annotation.value != [] && Breaks(toks, k))
             else At(toks, k) != ":"
    ensures At(toks, i) == keyword && At(toks, i + 1) == name && (At(toks, i + 2) == ":" <==> annotation.Some?)
    ensures var typed := if annotation.Some? then ScanUntil(toks, i + 3, i + 3, 0, "=", s) else Stop(i + 2, s);
            typed.k == i + |BindingLead(false, keyword, name, annotation)|
  {
    hide ScanUntil, AnnotationTexts, Unbroken, Breaks, IsName;
    assert If(false, "export") + [keyword, name] + After(":", annotation) == [keyword, name] + After(":", annotation);
    SpellsBoth(toks, i, [keyword, name], After(":", annotation));
    assert toks[i + 0].text == [keyword, name][0] && toks[i + 1].text == [keyword, name][1];
    if annotation.Some? {
      SpellsBoth(toks, i + 2, [":"], annotation.value);
      assert toks[i + 2 + 0].text == [":"][0];
      ScanSpelled(toks, i + 3, annotation.value, "=", s);
    }
  }

  /** A binding of a function is read as written. */
  lemma BindingSpelled(toks: seq<Token>, i: nat, keyword: string, name: string, annotation: Option<seq<string>>, v: Value, s: nat)
    requires var k := i + |BindingLead(false, keyword, name, annotation)|;
             && Spells(toks, i, BindingLead(false, keyword, name, annotation)) && Spells(toks, k, ["="] + ValueTexts(v))
             && ValueFits(v, toks, k + 1)
    requires IsName(name) && AnnotationFits(annotation, "=", toks, i + 3) && s > 6 * |toks|
    ensures var k := i + |BindingLead(false, keyword, name, annotation)|;
            IsCalled(Binding(toks, i, s), toks, name, v.async, v.FunctionValue? && v.generator, k + 1 + |ValueLead(v)|, v.head, v.body, k + 1 + |ValueTexts(v)|)
  {
    hide Initializer, ScanUntil, ValueTexts, ValueFits, ValueLead, IsCalled, IsName, BindingLead, Unbroken, AnnotationTexts;
    var k := i + |BindingLead(false, keyword, name, annotation)|;
    SpellsBoth(toks, k, ["="], ValueTexts(v));
    assert toks[k + 0].text == ["="][0];
    BindingLeads(toks, i, keyword, name, annotation, s);
    var typed := if annotation.Some? then ScanUntil(toks, i + 3, i + 3, 0, "=", s) else Stop(i + 2, s);
    ValueSpelled(toks, name, k + 1, v, typed.steps);
  }

  /** A group in parentheses without an arrow is no arrow function. */
  lemma NoArrow(toks: seq<Token>, k: nat, texts: seq<string>, s: nat)
    requires Spells(toks, k, ["("] + texts + [")"]) && Balanced(Round, texts) && s >= |toks|
    requires var end := At(toks, k + |texts| + 2); end != ":" && end != "=>"
    ensures At(toks, k) == "(" && !Arrow(toks, k, s).ok
  {
    hide MatchClose, Balanced, ArrowBody, Slice;
    CloseSpelled(toks, k, "(", texts, ")", s);
    assert toks[k + 0].text == (["("] + texts + [")"])[0];
    NoBody(toks, NO_FUNCTION.(typeParams := false, params := Slice(toks, k + 1, k + |texts| + 1)), k, k + |texts| + 2, MatchClose(toks, k, 0, s).steps);
  }

  lemma NoBody(toks: seq<Token>, fn: ScriptFunction, sigStart: nat, k: nat, s: nat)
    requires sigStart <= |toks| && At(toks, k) != "=>"
    ensures !ArrowBody(toks, fn, sigStart, k, s).ok
  {}

  /** What starts no function is none. */
  lemma NoOther(toks: seq<Token>, name: string, k: nat, s: nat)
    requires StartsNoFunction(toks, k)
    ensures !Initializer(toks, name, k, s).ok
  {
    hide IsName, Declaration, ArrowParams, ArrowExpression, MatchClose;
  }

  /** A value that starts no function, or a group in parentheses without an arrow, is no function. */
  lemma NoInitializer(toks: seq<Token>, name: string, k: nat, start: Start, s: nat)
    requires !start.NoValue? && Spells(toks, k, StartTexts(start)[1..]) && s >= |toks|
    requires StartFits(start, None, toks, k + |StartTexts(start)| - 1)
    ensures !Initializer(toks, name, k, s).ok
  {
    if start.Group? {
      hide Declaration, Arrow, Balanced, Spells, IsName;
      assert StartTexts(start)[1..] == ["("] + start.texts + [")"];
      NoArrow(toks, k, start.texts, s);
    } else {
      hide *;
      OtherFits(start, toks, k);
      NoOther(toks, name, k, s);
    }
  }

  lemma OtherFits(start: Start, toks: seq<Token>, k: nat)
    requires start.OtherValue? && StartFits(start, None, toks, k + |StartTexts(start)| - 1)
    ensures StartsNoFunction(toks, k)
  {}

  /** A binding of anything else is none of a function. */
  lemma ConstantSpelled(toks: seq<Token>, i: nat, keyword: string, name: string, annotation: Option<seq<string>>, start: Start, s: nat)
    requires var k := i + |BindingLead(false, keyword, name, annotation)|;
             && Spells(toks, i, BindingLead(false, keyword, name, annotation)) && Spells(toks, k, StartTexts(start))
             && StartFits(start, annotation, toks, k + |StartTexts(start)|)
    requires IsName(name) && AnnotationFits(annotation, "=", toks, i + 3) && s > 6 * |toks|
    ensures !Binding(toks, i, s).ok
  {
    hide Initializer, ScanUntil, IsName, BindingLead, Unbroken, AnnotationTexts, Balanced, StartsNoFunction, Breaks;
    var k := i + |BindingLead(false, keyword, name, annotation)|;
    if !start.NoValue? {
      StartsWithEquals(start);
      SpellsBoth(toks, k, ["="], StartTexts(start)[1..]);
      assert toks[k + 0].text == ["="][0];
      BindingLeads(toks, i, keyword, name, annotation, s);
      var typed := if annotation.Some? then ScanUntil(toks, i + 3, i + 3, 0, "=", s) else Stop(i + 2, s);
      NoInitializer(toks, name, k + 1, start, typed.steps);
    } else {
      BindingLeads(toks, i, keyword, name, annotation, s);
    }
  }

  lemma StartsWithEquals(start: Start)
    requires !start.NoValue?
    ensures StartTexts(start) == ["="] + StartTexts(start)[1..]
  {}

  // ----- export lists -----

  /** The tokens of one name of a list. */
  lemma SpecTokens(toks: seq<Token>, i: nat, spec: Spec)
    requires Spells(toks, i, SpecTexts(spec))
    ensures var local := i + |If(spec.typeOnly, "type")|;
            && (spec.typeOnly ==> At(toks, i) == "type") && At(toks, local) == spec.local
            && (spec.renamed.Some? ==> At(toks, local + 1) == "as" && At(toks, local + 2) == spec.renamed.value)
            && |SpecTexts(spec)| == |If(spec.typeOnly, "type")| + if spec.renamed.Some? then 3 else 1
  {
    var local := i + |If(spec.typeOnly, "type")|;
    var as_ := match spec.renamed case None => None case Some(a) => Some([a]);
    SpellsBoth(toks, i, If(spec.typeOnly, "type") + [spec.local], After("as", as_));
    SpellsBoth(toks, i, If(spec.typeOnly, "type"), [spec.local]);
    SpelledOne(toks, local, spec.local);
    if spec.typeOnly {
      SpelledOne(toks, i, "type");
    }
    if spec.renamed.Some? {
      assert toks[local + 1 + 0].text == After("as", as_)[0] && toks[local + 1 + 1].text == After("as", as_)[1];
    }
  }

  lemma SpelledOne(toks: seq<Token>, i: nat, a: string)
    requires Spells(toks, i, [a])
    ensures At(toks, i) == a && i < |toks|
  {
    assert toks[i + 0].text == [a][0];
  }

  /** One name of a list is one pair. */
  lemma SpecSpelled(toks: seq<Token>, i: nat, spec: Spec, pairs: seq<(string, string)>, s: nat) returns (rest: nat)
    requires Spells(toks, i, SpecTexts(spec)) && IsSpec(spec) && At(toks, i + |SpecTexts(spec)|) != "as" && s >= |toks| - i
    ensures rest >= |toks| - (i + |SpecTexts(spec)|)
    ensures ExportList(toks, i, pairs, s) == ExportList(toks, i + |SpecTexts(spec)|, pairs + [SpecPair(spec)], rest)
  {
    hide IsName, SpecTexts, ExportList, SpecPair;
    SpecTokens(toks, i, spec);
    var local := i + |If(spec.typeOnly, "type")|;
    rest := if spec.typeOnly then s - 2 else s - 1;
    if spec.typeOnly {
      TypeIsSkipped(toks, i, pairs, s);
    }
    NameIsPaired(toks, local, spec, pairs, rest + 1);
  }

  lemma TypeIsSkipped(toks: seq<Token>, i: nat, pairs: seq<(string, string)>, s: nat)
    requires At(toks, i) == "type" && At(toks, i + 1) != "as" && s > 0
    ensures ExportList(toks, i, pairs, s) == ExportList(toks, i + 1, pairs, s - 1)
  {}

  lemma NameIsPaired(toks: seq<Token>, i: nat, spec: Spec, pairs: seq<(string, string)>, s: nat)
    requires At(toks, i) == spec.local && IsSpec(spec) && s > 0
    requires if spec.renamed.Some? then At(toks, i + 1) == "as" && At(toks, i + 2) == spec.renamed.value else At(toks, i + 1) != "as"
    ensures ExportList(toks, i, pairs, s) == ExportList(toks, if spec.renamed.Some? then i + 3 else i + 1, pairs + [SpecPair(spec)], s - 1)
  {}

  function SpecPairs(specs: seq<Spec>): seq<(string, string)> {
    seq(|specs|, k requires 0 <= k < |specs| => SpecPair(specs[k]))
  }

  lemma {:induction false} SpecsSpelled(toks: seq<Token>, i: nat, specs: seq<Spec>, pairs: seq<(string, string)>, s: nat) returns (rest: nat)
    requires Spells(toks, i, SpecsTexts(specs)) && (forall x :: x in specs ==> IsSpec(x)) && s >= |toks| - i
    requires At(toks, i + |SpecsTexts(specs)|) != "as"
    ensures rest >= |toks| - (i + |SpecsTexts(specs)|)
    ensures ExportList(toks, i, pairs, s) == ExportList(toks, i + |SpecsTexts(specs)|, pairs + SpecPairs(specs), rest)
    decreases |specs|
  {
    hide ExportList, SpecTexts, IsSpec, SpecPair;
    if specs == [] {
      rest := s;
      assert pairs + SpecPairs(specs) == pairs;
    } else if |specs| == 1 {
      rest := SpecSpelled(toks, i, specs[0], pairs, s);
      assert SpecPairs(specs) == [SpecPair(specs[0])];
    } else {
      var comma := i + |SpecTexts(specs[0])|;
      SpellsBoth(toks, i, SpecTexts(specs[0]) + [","], SpecsTexts(specs[1..]));
      SpellsBoth(toks, i, SpecTexts(specs[0]), [","]);
      assert toks[comma + 0].text == [","][0];
      rest := SpecSpelled(toks, i, specs[0], pairs, s);
      CommaIsSkipped(toks, comma, pairs + [SpecPair(specs[0])], rest);
      rest := SpecsSpelled(toks, comma + 1, specs[1..], pairs + [SpecPair(specs[0])], rest - 1);
      assert pairs + [SpecPair(specs[0])] + SpecPairs(specs[1..]) == pairs + SpecPairs(specs);
    }
  }

  lemma CommaIsSkipped(toks: seq<Token>, i: nat, pairs: seq<(string, string)>, s: nat)
    requires At(toks, i) == "," && s > 0
    ensures ExportList(toks, i, pairs, s) == ExportList(toks, i + 1, pairs, s - 1)
  {
    NoNames();
  }

  /** A list, after its opening brace, gives its pairs and ends after its closing brace. */
  lemma ListSpelled(toks: seq<Token>, i: nat, specs: seq<Spec>, trailing: bool, s: nat)
    requires Spells(toks, i, SpecsTexts(specs) + If(trailing, ",") + ["}"]) && (forall x :: x in specs ==> IsSpec(x)) && s >= |toks|
    ensures var e := ExportList(toks, i, [], s); e.pairs == SpecPairs(specs) && e.next == i + |SpecsTexts(specs)| + |If(trailing, ",")| + 1
  {
    hide SpecsTexts, IsSpec;
    var k := i + |SpecsTexts(specs)|;
    SpellsBoth(toks, i, SpecsTexts(specs) + If(trailing, ","), ["}"]);
    SpellsBoth(toks, i, SpecsTexts(specs), If(trailing, ","));
    assert toks[k + |If(trailing, ",")| + 0].text == ["}"][0];
    if trailing {
      assert toks[k + 0].text == If(trailing, ",")[0];
    }
    var rest := SpecsSpelled(toks, i, specs, [], s);
    assert [] + SpecPairs(specs) == SpecPairs(specs);
    if trailing {
      CommaIsSkipped(toks, k, SpecPairs(specs), rest);
    }
  }
}

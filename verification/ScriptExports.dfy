/** From the text of a source to what it exports. */
module ScriptExports {
  import opened Json
  import opened ScriptParse
  import opened ScriptLex
  import opened ScriptScans
  import opened ScriptItems
  import ScriptModules
  import ScriptSources

  /** The tokens of a source as it is written. */
  function TokensOf(ps: seq<ScriptSources.Placed>): (toks: seq<Token>)
    ensures |toks| == |ps|
  {
    seq(|ps|, k requires 0 <= k < |ps| => Token(ScriptSources.LexemeText(ps[k].lexeme), ScriptSources.LineOf(ps, k)))
  }

  /** Its doc comments, by the token they precede. */
  function DocsOf(ps: seq<ScriptSources.Placed>): map<nat, string> {
    map k: nat | k < |ps| && ScriptSources.DocOf(ps[k].gap, "") != "" :: ScriptSources.DocOf(ps[k].gap, "")
  }

  lemma {:induction false} WrittenFunctions(ps: seq<ScriptSources.Placed>, tail: seq<ScriptSources.Space>, b: Bounds)
    requires ScriptSources.IsSource(ps) && ScriptSources.IsTail(ps, tail) && !FunctionsOf(ScriptSources.Source(ps, tail), b).cut
    ensures !Parse(TokensOf(ps), DocsOf(ps), b.steps).cut
    ensures FunctionsOf(ScriptSources.Source(ps, tail), b).functions == Parse(TokensOf(ps), DocsOf(ps), b.steps).functions
  {
    hide Parse, Lex, ScriptSources.DocOf, ScriptSources.LineOf, ScriptSources.LexemeText, ScriptSources.IsSource, ScriptSources.IsTail, ScriptSources.Source;
    var src := ScriptSources.Source(ps, tail);
    var lexed := Lex(src, b.tokens, b.depth);
    ScriptSources.TokensAsWritten(ps, tail, b.tokens, b.depth);
    assert Tokens(src, lexed.spans) == TokensOf(ps);
    assert lexed.docs == DocsOf(ps);
  }

  /**
   The exports of a source: when its tokens are those of a list of items, an enumeration that is not
   cut has a function under a name exactly when some item gives it that name, and the function is
   the one that is written there, with its line and its doc comment.
   */
  lemma {:induction false} SourceExports(ps: seq<ScriptSources.Placed>, tail: seq<ScriptSources.Space>, items: seq<Item>, b: Bounds)
    requires ScriptSources.IsSource(ps) && ScriptSources.IsTail(ps, tail) && Fits(items, TokensOf(ps))
    requires !FunctionsOf(ScriptSources.Source(ps, tail), b).cut
    ensures var r := FunctionsOf(ScriptSources.Source(ps, tail), b).functions;
            && (forall name :: name in r <==> exists k: nat :: Gives(items, name, k))
            && (forall name, k: nat :: Gives(items, name, k) ==>
                  k < |items| && FunctionOf(items[k]).Some? && name in r
                  && r[name] == ToldAt(items, TokensOf(ps), DocsOf(ps), k).(name := name))
  {
    hide Parse, FunctionsOf, Fits, Gives, ToldAt, FunctionOf, TokensOf, DocsOf, ScriptSources.IsSource, ScriptSources.IsTail, ScriptSources.Source;
    WrittenFunctions(ps, tail, b);
    ScriptModules.ModuleExports(items, TokensOf(ps), DocsOf(ps), b.steps);
  }

  // ----- an example -----

  function Simple(how: How, name: string): Item {
    Declared(how, false, false, name, Listed(None, [], None), Block([]))
  }

  lemma SimpleTexts(how: How, name: string)
    requires name != ""
    ensures Texts(Simple(how, name)) == HowTexts(how) + ["function", name, "(", ")", "{", "}"]
  {
    hide HowTexts;
    assert If(false, "async") == [] && If(name != "", name) == [name];
    assert HeadTexts(Listed(None, [], None)) == ["(", ")"] && BodyTexts(Block([])) == ["{", "}"];
  }

  lemma {:induction false} SimpleFits(how: How, name: string, toks: seq<Token>, i: nat)
    requires IsName(name) && Spells(toks, i, HowTexts(how) + ["function", name, "(", ")", "{", "}"])
    ensures ItemFits(Simple(how, name), toks, i) && |Texts(Simple(how, name))| == |HowTexts(how)| + 6
  {
    hide IdentStart, HowTexts, Texts;
    SimpleTexts(how, name);
    NothingIsBalanced();
  }

  lemma NothingIsBalanced()
    ensures Balanced(Round, [])
  {}

  function Two(): seq<Item> {
    [Simple(Exporting, "f"), Simple(Private, "g")]
  }

  /** `export function f() {}` followed by `function g() {}`, on whatever lines. */
  predicate SpellsTwo(toks: seq<Token>) {
    && |toks| == 13 && Spells(toks, 0, ["export", "function", "f", "(", ")", "{", "}"])
    && Spells(toks, 7, ["function", "g", "(", ")", "{", "}"])
  }

  lemma {:induction false} TwoFit(toks: seq<Token>)
    requires SpellsTwo(toks)
    ensures Fits(Two(), toks) && Place(Two(), 0) == 0
  {
    hide Spells, ItemFits, Texts, IdentStart, Simple;
    assert HowTexts(Exporting) + ["function", "f", "(", ")", "{", "}"] == ["export", "function", "f", "(", ")", "{", "}"];
    assert HowTexts(Private) + ["function", "g", "(", ")", "{", "}"] == ["function", "g", "(", ")", "{", "}"];
    NamesHere();
    SimpleFits(Exporting, "f", toks, 0);
    SimpleFits(Private, "g", toks, 7);
    var items := Two();
    assert Place(items, 0) == 0;
    assert Place(items, 1) == 7;
    assert Place(items, 2) == 13;
  }

  lemma NamesHere()
    ensures IsName("f") && IsName("g")
  {}

  lemma TwoNames()
    ensures ExportsAs(Two()[0]) == Some("f") && ExportsAs(Two()[1]) == None && Lists(Two(), 2) == []
  {
    assert Lists(Two(), 0) == [] && Lists(Two(), 1) == [];
  }

  lemma {:induction false} TwoGive(name: string, k: nat)
    ensures Gives(Two(), name, k) <==> name == "f" && k == 0
  {
    hide ExportsAs, KeepsAs, Lists;
    TwoNames();
    assert |Two()| == 2;
    assert forall p: nat :: !ListGives(Two(), name, p);
  }

  lemma {:induction false} TwoTold(toks: seq<Token>, docs: map<nat, string>)
    requires SpellsTwo(toks) && Fits(Two(), toks) && FunctionOf(Two()[0]).Some?
    ensures var fn := ToldAt(Two(), toks, docs, 0); fn.line == toks[0].line && fn.endLine == toks[6].line
  {
    hide Spells, ItemFits;
    TwoFit(toks);
    SimpleTexts(Exporting, "f");
    ScriptModules.FitsSpells(Two()[0], toks, 0);
    TwoLength();
  }

  lemma TwoLength()
    ensures FunctionOf(Two()[0]).Some? && |FunctionTexts(FunctionOf(Two()[0]).value)| == 7
  {
    SimpleTexts(Exporting, "f");
  }

  /** Of these two, f is exported, with the lines it stands on, and g is not. */
  lemma {:induction false} PrivateStaysPrivate(toks: seq<Token>, docs: map<nat, string>, steps: nat)
    requires SpellsTwo(toks) && !Parse(toks, docs, steps).cut
    ensures var r := Parse(toks, docs, steps).functions; r.Keys == {"f"} && r["f"].line == toks[0].line && r["f"].endLine == toks[6].line
  {
    hide Parse, SpellsTwo, Fits, Two, Gives, FunctionOf, ToldAt;
    TwoFit(toks);
    ScriptModules.ModuleExports(Two(), toks, docs, steps);
    forall name, k: nat
      ensures Gives(Two(), name, k) <==> name == "f" && k == 0
    {
      TwoGive(name, k);
    }
    assert Gives(Two(), "f", 0);
    TwoTold(toks, docs);
  }
}

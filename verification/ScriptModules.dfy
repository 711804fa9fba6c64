/** What a module exports. */
module ScriptModules {
  import opened Json
  import opened ScriptParse
  import opened ScriptScans
  import opened ScriptItems
  import opened ScriptRead

  // ----- one step at the top level -----

  /** Visits enough for everything from token i on. */
  predicate Plenty(toks: seq<Token>, i: nat, s: nat) {
    s > StepCost(toks) * Left(toks, i)
  }

  lemma PlentyForOne(toks: seq<Token>, i: nat, s: nat)
    requires i < |toks| && Plenty(toks, i, s)
    ensures s > 6 * |toks| + 1
  {
    StepBudget(StepCost(toks), Left(toks, i), 0);
  }

  lemma PlentyLeft(toks: seq<Token>, i: nat, s: nat, j: nat, rest: nat)
    requires i < j && i < |toks| && Plenty(toks, i, s) && s - 1 <= rest + 6 * |toks|
    ensures Plenty(toks, j, rest)
  {
    StepBudget(StepCost(toks), Left(toks, i), Left(toks, j));
  }

  /** Outside brackets a token that is none goes to TopLevel. */
  lemma TopStep(toks: seq<Token>, docs: map<nat, string>, i: nat, t: Tables, s: nat) returns (rest: nat)
    requires i < |toks| && Plenty(toks, i, s) && !Opens(toks[i].text) && !Closes(toks[i].text)
    ensures s > 6 * |toks| + 1
    ensures var r := TopLevel(toks, docs, i, t, s - 1);
            rest == r.steps && Plenty(toks, r.i, rest)
            && ParseFrom(toks, docs, i, 0, t, s) == ParseFrom(toks, docs, r.i, r.depth, r.tables, rest)
  {
    hide TopLevel, Plenty, StepCost;
    PlentyForOne(toks, i, s);
    var r := TopLevel(toks, docs, i, t, s - 1);
    PlentyLeft(toks, i, s, r.i, r.steps);
    rest := r.steps;
  }

  /** What is written before a declaration. */
  lemma HowSpelled(toks: seq<Token>, i: nat, how: How, rest: seq<string>)
    requires Spells(toks, i, HowTexts(how) + rest)
    ensures Spells(toks, i + |HowTexts(how)|, rest)
    ensures how.Private? || At(toks, i) == "export"
    ensures how.ByDefault? ==> At(toks, i + 1) == "default"
  {
    SpellsBoth(toks, i, HowTexts(how), rest);
    forall k | 0 <= k < |HowTexts(how)|
      ensures toks[i + k].text == HowTexts(how)[k]
    {
    }
    if how.ByDefault? {
      assert toks[i + 1].text == HowTexts(how)[1];
    }
    if !how.Private? {
      assert toks[i + 0].text == HowTexts(how)[0];
    }
  }

  /** A function at token i, after what says how it is exported, is recorded; without one that alone is passed. */
  lemma TopFunction(toks: seq<Token>, docs: map<nat, string>, i: nat, how: How, t: Tables, s: nat)
    requires i < |toks| && (how.Private? || At(toks, i) == "export") && (how.ByDefault? ==> At(toks, i + 1) == "default")
    requires var j := i + |HowTexts(how)|;
             match how
             case Private => At(toks, i) != "export"
             case Exporting => At(toks, j) != "{" && At(toks, j) != "default"
             case ByDefault => !DefaultName(toks, j)
    ensures var j := i + |HowTexts(how)|; var found := FunctionAt(toks, j, how.ByDefault?, s);
            TopLevel(toks, docs, i, t, s)
            == if found.ok then Step(found.next, 0, Record(docs, t, toks, i, !how.Private?, how.ByDefault?, found.fn), found.steps)
               else Step(if how.Private? then i + 1 else j, 0, t, found.steps)
  {
    hide FunctionAt, Record, DefaultName, ExportList;
  }

  // ----- tokens that are no function -----

  /** A bracket, or a token within brackets, only changes the depth. */
  lemma NestedStep(toks: seq<Token>, docs: map<nat, string>, i: nat, depth: nat, t: Tables, s: nat)
    requires i < |toks| && depth + Change(Round, toks[i].text) >= 0 && (depth > 0 || Change(Round, toks[i].text) != 0)
    ensures OneStep(toks, docs, i, depth, t, s) == Step(i + 1, depth + Change(Round, toks[i].text), t, s)
  {
    hide TopLevel;
  }

  /** Outside brackets a token that starts no function is passed. */
  lemma FlatStep(toks: seq<Token>, docs: map<nat, string>, i: nat, t: Tables, s: nat)
    requires i < |toks| && Change(Round, toks[i].text) == 0
    requires !MayStart(toks[i].text) && (toks[i].text == "async" ==> At(toks, i + 1) != "function")
    ensures OneStep(toks, docs, i, 0, t, s) == Step(i + 1, 0, t, s)
  {
    hide ExportList, DefaultName, Record, Binding, Declaration, Arrow, TopLevel;
    TopFunction(toks, docs, i, Private, t, s);
  }

  lemma InertStep(toks: seq<Token>, docs: map<nat, string>, i: nat, depth: nat, t: Tables, s: nat) returns (rest: nat)
    requires i < |toks| && Plenty(toks, i, s) && depth + Change(Round, toks[i].text) >= 0
    requires depth == 0 ==> !MayStart(toks[i].text) && (toks[i].text == "async" ==> At(toks, i + 1) != "function")
    ensures Plenty(toks, i + 1, rest)
    ensures ParseFrom(toks, docs, i, depth, t, s) == ParseFrom(toks, docs, i + 1, depth + Change(Round, toks[i].text), t, rest)
  {
    hide Plenty, StepCost, OneStep, Change, MayStart;
    PlentyForOne(toks, i, s);
    rest := s - 1;
    PlentyLeft(toks, i, s, i + 1, rest);
    if depth == 0 && Change(Round, toks[i].text) == 0 {
      FlatStep(toks, docs, i, t, s - 1);
    } else {
      NestedStep(toks, docs, i, depth, t, s - 1);
    }
  }

  /** Tokens outside of all functions change nothing. */
  lemma {:induction false} InertSpelled(toks: seq<Token>, docs: map<nat, string>, i: nat, texts: seq<string>, m: nat, t: Tables, s: nat) returns (rest: nat)
    requires Spells(toks, i, texts) && Inert(texts) && m <= |texts| && Plenty(toks, i, s)
    requires Depth(Round, texts, m) >= 0
    ensures Plenty(toks, i + m, rest)
    ensures ParseFrom(toks, docs, i, 0, t, s) == ParseFrom(toks, docs, i + m, Depth(Round, texts, m), t, rest)
  {
    hide ParseFrom, Plenty, Change, MayStart, Spells, Inert;
    rest := s;
    if m > 0 {
      InertAt(toks, i, texts, m);
      rest := InertSpelled(toks, docs, i, texts, m - 1, t, s);
      rest := InertStep(toks, docs, i + (m - 1), Depth(Round, texts, m - 1), t, rest);
    }
  }

  /** The m-th token of such texts. */
  lemma InertAt(toks: seq<Token>, i: nat, texts: seq<string>, m: nat)
    requires Spells(toks, i, texts) && Inert(texts) && 0 < m <= |texts|
    ensures var k := i + (m - 1); var d := Depth(Round, texts, m - 1);
            && d >= 0 && k < |toks| && Depth(Round, texts, m) == d + Change(Round, toks[k].text) >= 0
            && (d == 0 ==> !MayStart(toks[k].text) && (toks[k].text == "async" ==> At(toks, k + 1) != "function"))
  {
    hide Change, MayStart;
    var d := Depth(Round, texts, m - 1);
    assert toks[i + (m - 1)].text == texts[m - 1];
    if d == 0 && texts[m - 1] == "async" {
      AsyncIsFlat(texts, m);
      assert toks[i + m].text == texts[m];
    }
  }

  lemma AsyncIsFlat(texts: seq<string>, m: nat)
    requires Inert(texts) && 0 < m <= |texts| && Depth(Round, texts, m - 1) == 0 && texts[m - 1] == "async"
    ensures m < |texts| && texts[m] != "function"
  {
    assert Depth(Round, texts, m) == 0;
  }

  // ----- functions -----

  /** With the line and the doc comment of its first token, what the parser returns is what is written. */
  lemma RawIsTold(f: Function, toks: seq<Token>, docs: map<nat, string>, i: nat, name: string, generator: bool, at: nat, end: nat)
    requires Spells(toks, i, FunctionTexts(f)) && at == i + |f.lead| && end == i + |FunctionTexts(f)| && generator == f.generator
    requires at + |HeadTexts(f.head)| <= |toks| && at + ParamsAt(f.head) + |ParamTexts(f.head)| <= |toks|
    ensures Called(Raw(toks, name, generator, at, f.head, f.body, end), f.name, f.async).(line := toks[i].line, doc := if i in docs then docs[i] else "")
         == Told(f, toks, docs, i)
  {
    hide FunctionTexts, HeadTexts, BodyTexts, Joined, ParamsAt, ParamTexts, Spells;
    var sig := Joined(HeadTexts(f.head));
    assert "async " + ("* " + sig) == "async " + "* " + sig;
    assert "" + sig == sig && "async " + "" + sig == "async " + sig && "" + "* " + sig == "* " + sig && "async " + ("" + sig) == "async " + sig;
  }

  /** The tables after an item. */
  ghost function Effect(item: Item, toks: seq<Token>, docs: map<nat, string>, i: nat, t: Tables): Tables
    requires Spells(toks, i, Texts(item))
  {
    if FunctionOf(item).Some? then
      var fn := Told(FunctionOf(item).value, toks, docs, i);
      if ExportsAs(item).Some? then t.(exported := t.exported[ExportsAs(item).value := fn]) else t.(locals := t.locals[fn.name := fn])
    else t.(lists := t.lists + Pairs(item))
  }

  /** From an item on, the parse goes on after it with the tables it leaves. */
  ghost predicate Passes(toks: seq<Token>, docs: map<nat, string>, i: nat, t: Tables, s: nat, j: nat, after: Tables, rest: nat) {
    Plenty(toks, j, rest) && ParseFrom(toks, docs, i, 0, t, s) == ParseFrom(toks, docs, j, 0, after, rest)
  }

  /** How the function of an item is exported is how it is recorded. */
  predicate SameHow(item: Item, how: How)
    requires FunctionOf(item).Some?
  {
    match how
    case Private => ExportsAs(item) == None
    case Exporting => ExportsAs(item) == Some(FunctionOf(item).value.name)
    case ByDefault => ExportsAs(item) == Some("default") && FunctionOf(item).value.name == "default"
  }

  /** The parser returned the function of an item. */
  ghost predicate Returned(found: Found, toks: seq<Token>, i: nat, f: Function, how: How, name: string) {
    var at := i + |f.lead|;
    var end := i + |FunctionTexts(f)|;
    && at + |HeadTexts(f.head)| <= |toks| && at + ParamsAt(f.head) + |ParamTexts(f.head)| <= |toks| && end <= |toks|
    && found.ok && found.next == end
    && (if how.ByDefault? then found.fn.(name := "default") else found.fn) == Called(Raw(toks, name, f.generator, at, f.head, f.body, end), f.name, f.async)
  }

  lemma RecordIsEffect(toks: seq<Token>, docs: map<nat, string>, i: nat, item: Item, how: How, name: string, t: Tables, found: Found)
    requires i < |toks| && Spells(toks, i, Texts(item)) && FunctionOf(item).Some? && Texts(item) == FunctionTexts(FunctionOf(item).value)
    requires Returned(found, toks, i, FunctionOf(item).value, how, name) && SameHow(item, how)
    ensures Record(docs, t, toks, i, !how.Private?, how.ByDefault?, found.fn) == Effect(item, toks, docs, i, t)
  {
    hide Raw, Told, FunctionTexts, HeadTexts, FunctionOf, ExportsAs, Texts, ParamsAt, ParamTexts, Spells;
    var f := FunctionOf(item).value;
    RawIsTold(f, toks, docs, i, name, f.generator, i + |f.lead|, i + |FunctionTexts(f)|);
    assert Told(f, toks, docs, i).name == f.name by {
      ToldName(f, toks, docs, i);
    }
  }

  lemma ToldName(f: Function, toks: seq<Token>, docs: map<nat, string>, i: nat)
    requires Spells(toks, i, FunctionTexts(f))
    ensures Told(f, toks, docs, i).name == f.name
  {}

  /** A function is recorded under its name. */
  lemma FunctionPasses(toks: seq<Token>, docs: map<nat, string>, i: nat, item: Item, how: How, name: string, t: Tables, s: nat) returns (rest: nat)
    requires Plenty(toks, i, s) && Spells(toks, i, Texts(item)) && FunctionOf(item).Some?
    requires Texts(item) == FunctionTexts(FunctionOf(item).value)
    requires i < |toks| && !Opens(toks[i].text) && !Closes(toks[i].text)
    requires (how.Private? || At(toks, i) == "export") && (how.ByDefault? ==> At(toks, i + 1) == "default")
    requires var j := i + |HowTexts(how)|;
             match how
             case Private => At(toks, i) != "export"
             case Exporting => At(toks, j) != "{" && At(toks, j) != "default"
             case ByDefault => !DefaultName(toks, j)
    requires s > 0 && SameHow(item, how)
    requires Returned(FunctionAt(toks, i + |HowTexts(how)|, how.ByDefault?, s - 1), toks, i, FunctionOf(item).value, how, name)
    ensures Passes(toks, docs, i, t, s, i + |Texts(item)|, Effect(item, toks, docs, i, t), rest)
  {
    hide FunctionAt, Returned, FunctionTexts, SameHow, FunctionOf, Texts, DefaultName, Plenty, TopLevel, ParseFrom, Spells, Record, Effect, HowTexts;
    rest := TopStep(toks, docs, i, t, s);
    TopFunction(toks, docs, i, how, t, s - 1);
    var found := FunctionAt(toks, i + |HowTexts(how)|, how.ByDefault?, s - 1);
    ReturnedEnd(found, toks, i, FunctionOf(item).value, how, name);
    RecordIsEffect(toks, docs, i, item, how, name, t, found);
  }

  lemma ReturnedEnd(found: Found, toks: seq<Token>, i: nat, f: Function, how: How, name: string)
    requires Returned(found, toks, i, f, how, name)
    ensures found.ok && found.next == i + |FunctionTexts(f)|
  {}

  lemma TextsStart(toks: seq<Token>, i: nat, item: Item)
    requires Spells(toks, i, Texts(item)) && FunctionOf(item).Some?
    ensures i < |toks|
  {}

  lemma DeclaredTexts(item: Item)
    requires item.Declared?
    ensures FunctionOf(item).Some? && Texts(item) == FunctionTexts(FunctionOf(item).value)
    ensures Texts(item) == HowTexts(item.how) + (If(item.async, "async") + (DeclarationTexts(item.generator, item.name, item.head) + BodyTexts(item.body)))
    ensures |FunctionOf(item).value.lead| ==
            |HowTexts(item.how)| + |If(item.async, "async")| + 1 + |If(item.generator, "*")| + |If(item.name != "", item.name)|
    ensures |Texts(item)| == |FunctionOf(item).value.lead| + |HeadTexts(item.head)| + |BodyTexts(item.body)|
    ensures |If(item.async, "async")| == if item.async then 1 else 0
  {
    hide HeadTexts, BodyTexts, HowTexts, If;
    NoText("=>");
    AsyncLength(item.async);
    Regrouped6(HowTexts(item.how), If(item.async, "async"), ["function"], If(item.generator, "*"), If(item.name != "", item.name), HeadTexts(item.head),
               BodyTexts(item.body));
  }

  lemma NoText(text: string)
    ensures If(false, text) == []
  {}

  lemma AsyncLength(async: bool)
    ensures |If(async, "async")| == if async then 1 else 0
  {}

  lemma Regrouped6<T>(a: seq<T>, b: seq<T>, c: seq<T>, d: seq<T>, e: seq<T>, f: seq<T>, g: seq<T>)
    ensures a + b + c + d + e + f + [] + g == a + (b + (c + d + e + f + g))
  {}

  lemma NotDefaultName(toks: seq<Token>, j: nat)
    ensures At(toks, j) in {"function", "async", "(", "<"} ==> !DefaultName(toks, j)
  {
    hide IdentStart;
    NoNames();
  }

  /** A declaration at token j, perhaps async. */
  lemma DeclarationAt(toks: seq<Token>, j: nat, async: bool, name: string, anonymous: bool, s: nat)
    requires var k := j + |If(async, "async")|; At(toks, k) == "function" && (async ==> At(toks, j) == "async")
    ensures var d := Declaration(toks, j + |If(async, "async")|, s);
            d.fn.name == name ==> FunctionAt(toks, j, anonymous, s) == d.(fn := Called(d.fn, name, async))
  {
    hide Declaration, Arrow, Binding;
  }

  /** What the parser returns of a declaration, from token j on. */
  lemma DeclarationReturned(toks: seq<Token>, j: nat, async: bool, generator: bool, name: string, head: Head, body: Body, anonymous: bool, s: nat)
    requires Spells(toks, j, If(async, "async") + (DeclarationTexts(generator, name, head) + BodyTexts(body)))
    requires DeclarationFits(name, head, body) && s >= 5 * |toks|
    ensures At(toks, j) == if async then "async" else "function"
    ensures var k := j + |If(async, "async")|; var at := k + 1 + |If(generator, "*")| + |If(name != "", name)|;
            IsCalled(FunctionAt(toks, j, anonymous, s), toks, name, async, generator, at, head, body, at + |HeadTexts(head)| + |BodyTexts(body)|)
  {
    hide Declaration, FunctionAt, HeadTexts, BodyTexts, DeclarationTexts, DeclarationFits, Spells, IsRaw, IsCalled, If;
    AsyncLength(async);
    var k := j + |If(async, "async")|;
    var at := k + 1 + |If(generator, "*")| + |If(name != "", name)|;
    var end := at + |HeadTexts(head)| + |BodyTexts(body)|;
    IfSpelled(toks, j, async, "async", DeclarationTexts(generator, name, head) + BodyTexts(body));
    FunctionFirst(toks, k, generator, name, head, BodyTexts(body));
    DeclarationSpelled(toks, k, generator, name, head, body, s);
    var d := Declaration(toks, k, s);
    RawNamed(d, toks, name, generator, at, head, body, end);
    DeclarationAt(toks, j, async, name, anonymous, s);
    RawIsCalled(d, toks, name, name, async, generator, at, head, body, end);
  }

  lemma RawNamed(d: Found, toks: seq<Token>, name: string, generator: bool, at: nat, h: Head, body: Body, end: nat)
    requires IsRaw(d, toks, name, generator, at, h, body, end)
    ensures d.fn.name == name
  {
    hide HeadTexts, BodyTexts, ParamTexts, ParamsAt, Joined;
  }

  lemma CalledIsReturned(found: Found, toks: seq<Token>, i: nat, f: Function, how: How, name: string)
    requires var at := i + |f.lead|; IsCalled(found, toks, name, f.async, f.generator, at, f.head, f.body, i + |FunctionTexts(f)|)
    requires f.name == if how.ByDefault? then "default" else name
    ensures Returned(found, toks, i, f, how, "")
  {
    hide Raw, HeadTexts, FunctionTexts, ParamTexts, ParamsAt;
  }

  /** A declaration, with what exports it. */
  lemma DeclaredPasses(toks: seq<Token>, docs: map<nat, string>, i: nat, item: Item, t: Tables, s: nat) returns (rest: nat)
    requires item.Declared? && ItemFits(item, toks, i) && Plenty(toks, i, s)
    ensures Passes(toks, docs, i, t, s, i + |Texts(item)|, Effect(item, toks, docs, i, t), rest)
  {
    hide FunctionAt, HeadTexts, BodyTexts, HowTexts, DeclarationTexts, DeclarationFits, FunctionTexts, Texts, Passes, Plenty, Effect, Spells, If;
    hide DefaultName, IsCalled, Returned;
    DeclaredTexts(item);
    var how, f := item.how, FunctionOf(item).value;
    var j := i + |HowTexts(how)|;
    HowSpelled(toks, i, how, If(item.async, "async") + (DeclarationTexts(item.generator, item.name, item.head) + BodyTexts(item.body)));
    TextsStart(toks, i, item);
    PlentyForOne(toks, i, s);
    DeclarationReturned(toks, j, item.async, item.generator, item.name, item.head, item.body, how.ByDefault?, s - 1);
    NotDefaultName(toks, j);
    HowLength(how);
    CalledIsReturned(FunctionAt(toks, j, how.ByDefault?, s - 1), toks, i, f, how, item.name);
    rest := FunctionPasses(toks, docs, i, item, how, "", t, s);
  }

  lemma HowLength(how: How)
    ensures |HowTexts(how)| == if how.Private? then 0 else if how.Exporting? then 1 else 2
  {}

  // ----- bindings -----

  lemma ValueParts(v: Value)
    ensures ValueLead(v) + HeadTexts(v.head) + If(v.ArrowValue?, "=>") + BodyTexts(v.body) == ValueTexts(v)
  {
    hide HeadTexts, BodyTexts, If;
    NoText("=>");
    if v.FunctionValue? {
      Regrouped5(If(v.async, "async"), ["function"], If(v.generator, "*"), If(v.inner != "", v.inner), HeadTexts(v.head), BodyTexts(v.body));
    } else {
      assert If(true, "=>") == ["=>"] by {
        TextThere("=>");
      }
      Regrouped3(If(v.async, "async"), HeadTexts(v.head), ["=>"], BodyTexts(v.body));
    }
  }

  lemma TextThere(text: string)
    ensures If(true, text) == [text]
  {}

  lemma Regrouped5<T>(a: seq<T>, b: seq<T>, c: seq<T>, d: seq<T>, e: seq<T>, f: seq<T>)
    ensures a + (b + c + d) + e + [] + f == a + (b + c + d + e + f)
  {}

  lemma Regrouped3<T>(a: seq<T>, b: seq<T>, c: seq<T>, d: seq<T>)
    ensures a + [] + b + c + d == a + (b + c + d)
  {}

  lemma BindingParts(exports: bool, keyword: string, name: string, annotation: Option<seq<string>>)
    ensures BindingLead(exports, keyword, name, annotation) == If(exports, "export") + BindingLead(false, keyword, name, annotation)
  {
    hide After;
  }

  lemma BoundTexts(item: Item)
    requires item.Bound?
    ensures FunctionOf(item).Some? && Texts(item) == FunctionTexts(FunctionOf(item).value)
    ensures var lead := BindingLead(false, item.keyword, item.name, item.annotation);
            && Texts(item) == If(item.exports, "export") + (lead + (["="] + ValueTexts(item.value)))
            && |FunctionOf(item).value.lead| == |If(item.exports, "export")| + |lead| + 1 + |ValueLead(item.value)|
            && |BindingLead(item.exports, item.keyword, item.name, item.annotation)| == |If(item.exports, "export")| + |lead|
    ensures |Texts(item)| == |If(item.exports, "export")| + |BindingLead(false, item.keyword, item.name, item.annotation)| + 1 + |ValueTexts(item.value)|
  {
    hide HeadTexts, BodyTexts, BindingLead, ValueLead, ValueTexts, If;
    var v := item.value;
    ValueParts(v);
    BindingParts(item.exports, item.keyword, item.name, item.annotation);
    Regrouped(If(item.exports, "export"), BindingLead(false, item.keyword, item.name, item.annotation), ["="], ValueLead(v), HeadTexts(v.head),
              If(v.ArrowValue?, "=>"), BodyTexts(v.body));
  }

  lemma Regrouped<T>(a: seq<T>, b: seq<T>, c: seq<T>, d: seq<T>, e: seq<T>, f: seq<T>, g: seq<T>)
    ensures a + b + c + d + e + f + g == a + (b + (c + (d + e + f + g)))
  {}

  lemma IsHowTexts(exports: bool)
    ensures If(exports, "export") == HowTexts(if exports then Exporting else Private)
    ensures |If(exports, "export")| == if exports then 1 else 0
  {}

  /** The keyword of a binding starts it. */
  lemma BindingFirst(toks: seq<Token>, j: nat, keyword: string, name: string, annotation: Option<seq<string>>)
    requires Spells(toks, j, BindingLead(false, keyword, name, annotation))
    ensures At(toks, j) == keyword
  {
    hide After;
    assert toks[j + 0].text == BindingLead(false, keyword, name, annotation)[0];
  }

  lemma KeywordIsFirst(toks: seq<Token>, j: nat, anonymous: bool, s: nat)
    requires BindingKeyword(At(toks, j))
    ensures FunctionAt(toks, j, anonymous, s) == Binding(toks, j, s)
    ensures At(toks, j) != "export" && At(toks, j) != "{" && At(toks, j) != "default" && !Opens(At(toks, j)) && !Closes(At(toks, j))
  {}

  lemma ValueFitsItem(item: Item, toks: seq<Token>, i: nat)
    requires item.Bound? && ItemFits(item, toks, i)
    ensures var lead := i + |BindingLead(item.exports, item.keyword, item.name, item.annotation)|;
            ValueFits(item.value, toks, lead + 1) && AnnotationFits(item.annotation, "=", toks, i + |If(item.exports, "export")| + 3)
            && BindingKeyword(item.keyword) && IsName(item.name) && Spells(toks, i, Texts(item))
  {
    hide ArrowFits, DeclarationFits, ValueLead, BindingLead, Texts, AnnotationFits, IsName, BindingKeyword;
  }

  /** A binding of a function, exported or not. */
  lemma BoundPasses(toks: seq<Token>, docs: map<nat, string>, i: nat, item: Item, t: Tables, s: nat) returns (rest: nat)
    requires item.Bound? && ItemFits(item, toks, i) && Plenty(toks, i, s)
    ensures Passes(toks, docs, i, t, s, i + |Texts(item)|, Effect(item, toks, docs, i, t), rest)
  {
    hide FunctionAt, Binding, HeadTexts, BodyTexts, HowTexts, ValueTexts, ValueFits, ValueLead, BindingLead, FunctionTexts, Texts, Passes, Plenty, Effect, Spells, If;
    hide DefaultName, IsCalled, Returned, AnnotationFits, IsName, BindingKeyword, ItemFits;
    BoundTexts(item);
    ValueFitsItem(item, toks, i);
    IsHowTexts(item.exports);
    var how := if item.exports then Exporting else Private;
    var j := i + |HowTexts(how)|;
    var lead := BindingLead(false, item.keyword, item.name, item.annotation);
    HowSpelled(toks, i, how, lead + (["="] + ValueTexts(item.value)));
    SpellsBoth(toks, j, lead, ["="] + ValueTexts(item.value));
    TextsStart(toks, i, item);
    PlentyForOne(toks, i, s);
    BindingSpelled(toks, j, item.keyword, item.name, item.annotation, item.value, s - 1);
    BindingFirst(toks, j, item.keyword, item.name, item.annotation);
    KeywordIsFirst(toks, j, false, s - 1);
    CalledIsReturned(Binding(toks, j, s - 1), toks, i, FunctionOf(item).value, how, item.name);
    rest := FunctionPasses(toks, docs, i, item, how, "", t, s);
  }

  // ----- arrow functions by default -----

  lemma ArrowDefaultTexts(item: Item)
    requires item.ArrowDefault?
    ensures FunctionOf(item).Some? && Texts(item) == FunctionTexts(FunctionOf(item).value)
    ensures Texts(item) == HowTexts(ByDefault) + (If(item.async, "async") + ArrowTexts(item.head, item.body))
    ensures |FunctionOf(item).value.lead| == 2 + |If(item.async, "async")|
    ensures |Texts(item)| == 2 + |If(item.async, "async")| + |ArrowTexts(item.head, item.body)|
  {
    hide HeadTexts, BodyTexts;
    assert ["export", "default"] + If(item.async, "async") + HeadTexts(item.head) + ["=>"] + BodyTexts(item.body)
        == ["export", "default"] + (If(item.async, "async") + (HeadTexts(item.head) + ["=>"] + BodyTexts(item.body)));
  }

  lemma ArrowReturned(toks: seq<Token>, j: nat, async: bool, head: Head, body: Body, s: nat)
    requires Spells(toks, j, If(async, "async") + ArrowTexts(head, body)) && (async || head.Listed?)
    requires ArrowFits(head, body, toks, j + |If(async, "async")|) && s > 4 * |toks|
    ensures At(toks, j) in {"async", "(", "<"}
    ensures var at := j + |If(async, "async")|;
            IsCalled(FunctionAt(toks, j, true, s), toks, "", async, false, at, head, body, at + |ArrowTexts(head, body)|)
  {
    hide Declaration, Arrow, Binding, HeadTexts, BodyTexts, ArrowTexts, ArrowFits, Joined, Spells, ParamsAt, ParamTexts, IdentStart;
    var k := j + |If(async, "async")|;
    IfSpelled(toks, j, async, "async", ArrowTexts(head, body));
    ArrowFitsHead(head, body, toks, k);
    ArrowStarts(toks, k, head, body);
    if head.Listed? {
      ListedStarts(toks, k, head, body);
    }
    ArrowSpelled(toks, k, head, body, s);
  }

  lemma ArrowFitsHead(head: Head, body: Body, toks: seq<Token>, k: nat)
    requires ArrowFits(head, body, toks, k)
    ensures IsArrowHead(head)
  {}

  lemma ListedStarts(toks: seq<Token>, k: nat, head: Head, body: Body)
    requires head.Listed? && Spells(toks, k, ArrowTexts(head, body))
    ensures At(toks, k) == "(" || At(toks, k) == "<"
  {
    hide HeadTexts, BodyTexts, ArrowTexts;
    ArrowTokens(toks, k, head, body);
    HeadStarts(toks, k, head);
  }

  /** An arrow function that is the default export. */
  lemma ArrowDefaultPasses(toks: seq<Token>, docs: map<nat, string>, i: nat, item: Item, t: Tables, s: nat) returns (rest: nat)
    requires item.ArrowDefault? && ItemFits(item, toks, i) && Plenty(toks, i, s)
    ensures Passes(toks, docs, i, t, s, i + |Texts(item)|, Effect(item, toks, docs, i, t), rest)
  {
    hide FunctionAt, HeadTexts, BodyTexts, HowTexts, ArrowTexts, ArrowFits, FunctionTexts, Texts, Passes, Plenty, Effect, Spells, If;
    hide DefaultName, IsCalled, Returned;
    ArrowDefaultTexts(item);
    HowLength(ByDefault);
    HowSpelled(toks, i, ByDefault, If(item.async, "async") + ArrowTexts(item.head, item.body));
    TextsStart(toks, i, item);
    PlentyForOne(toks, i, s);
    ArrowReturned(toks, i + 2, item.async, item.head, item.body, s - 1);
    NotDefaultName(toks, i + 2);
    CalledIsReturned(FunctionAt(toks, i + 2, true, s - 1), toks, i, FunctionOf(item).value, ByDefault, "");
    rest := FunctionPasses(toks, docs, i, item, ByDefault, "", t, s);
  }

  // ----- export lists and names -----

  lemma ListTexts(item: Item)
    requires item.List?
    ensures Texts(item) == ["export", "{"] + (SpecsTexts(item.specs) + If(item.trailing, ",") + ["}"])
  {
    hide SpecsTexts;
  }

  /** A list is kept for the end of the module, unless it exports from another one. */
  lemma ListPasses(toks: seq<Token>, docs: map<nat, string>, i: nat, item: Item, t: Tables, s: nat) returns (rest: nat)
    requires item.List? && ItemFits(item, toks, i) && Plenty(toks, i, s)
    ensures Passes(toks, docs, i, t, s, i + |Texts(item)|, Effect(item, toks, docs, i, t), rest)
  {
    hide FunctionAt, ExportList, SpecsTexts, Texts, Plenty, Spells, If, DefaultName, Record, IsSpec, ParseFrom;
    ListTexts(item);
    SpellsBoth(toks, i, ["export", "{"], SpecsTexts(item.specs) + If(item.trailing, ",") + ["}"]);
    SpelledTwo(toks, i, "export", "{");
    PlentyForOne(toks, i, s);
    ListSpelled(toks, i + 2, item.specs, item.trailing, s - 1);
    rest := TopStep(toks, docs, i, t, s);
    assert t.lists + [] == t.lists;
  }

  lemma SpelledTwo(toks: seq<Token>, i: nat, a: string, b: string)
    requires Spells(toks, i, [a, b])
    ensures At(toks, i) == a && At(toks, i + 1) == b
  {
    assert toks[i + 0].text == [a, b][0] && toks[i + 1].text == [a, b][1];
  }

  /** The name of a local as the default export. */
  lemma NameDefaultPasses(toks: seq<Token>, docs: map<nat, string>, i: nat, item: Item, t: Tables, s: nat) returns (rest: nat)
    requires item.NameDefault? && ItemFits(item, toks, i) && Plenty(toks, i, s)
    ensures Passes(toks, docs, i, t, s, i + |Texts(item)|, Effect(item, toks, docs, i, t), rest)
  {
    hide FunctionAt, ExportList, Plenty, Record, IsName, ParseFrom;
    assert toks[i + 0].text == Texts(item)[0] && toks[i + 1].text == Texts(item)[1] && toks[i + 2].text == Texts(item)[2];
    PlentyForOne(toks, i, s);
    rest := TopStep(toks, docs, i, t, s);
  }

  // ----- what looks like a function and is none -----

  /** However many visits are left, no function is found at token j. */
  ghost predicate NoFunctionAt(toks: seq<Token>, j: nat) {
    forall anonymous, s: nat :: s > 6 * |toks| ==> !FunctionAt(toks, j, anonymous, s).ok
  }

  /** The keyword at token j is passed, after what would have exported it. */
  lemma KeywordPasses(toks: seq<Token>, docs: map<nat, string>, i: nat, how: How, t: Tables, s: nat) returns (rest: nat)
    requires var j := i + |HowTexts(how)|;
             j < |toks| && NoFunctionAt(toks, j) && (At(toks, j) == "function" || (BindingKeyword(At(toks, j)) && !how.ByDefault?))
    requires (how.Private? || At(toks, i) == "export") && (how.ByDefault? ==> At(toks, i + 1) == "default") && Plenty(toks, i, s)
    ensures Passes(toks, docs, i, t, s, i + |HowTexts(how)| + 1, t, rest)
  {
    hide FunctionAt, DefaultName, Plenty, TopLevel, ParseFrom, Record;
    HowLength(how);
    var j := i + |HowTexts(how)|;
    NotDefaultName(toks, j);
    rest := s;
    if !how.Private? {
      rest := TopStep(toks, docs, i, t, s);
      TopFunction(toks, docs, i, how, t, s - 1);
      assert !FunctionAt(toks, j, how.ByDefault?, s - 1).ok;
    }
    var before := rest;
    rest := TopStep(toks, docs, j, t, before);
    TopFunction(toks, docs, j, Private, t, before - 1);
    assert !FunctionAt(toks, j, false, before - 1).ok;
  }

  /** Tokens that change nothing after a keyword that is passed. */
  lemma KeywordThenInert(toks: seq<Token>, docs: map<nat, string>, i: nat, how: How, texts: seq<string>, t: Tables, s: nat) returns (rest: nat)
    requires var j := i + |HowTexts(how)|;
             && j < |toks| && NoFunctionAt(toks, j) && (At(toks, j) == "function" || (BindingKeyword(At(toks, j)) && !how.ByDefault?))
             && Spells(toks, j + 1, texts) && Inert(texts)
    requires (how.Private? || At(toks, i) == "export") && (how.ByDefault? ==> At(toks, i + 1) == "default") && Plenty(toks, i, s)
    ensures Passes(toks, docs, i, t, s, i + |HowTexts(how)| + 1 + |texts|, t, rest)
  {
    hide Plenty, ParseFrom, NoFunctionAt, Spells, HowTexts;
    var first := KeywordPasses(toks, docs, i, how, t, s);
    InertIsFlat(texts);
    rest := InertSpelled(toks, docs, i + |HowTexts(how)| + 1, texts, |texts|, t, first);
  }

  lemma InertIsFlat(texts: seq<string>)
    requires Inert(texts)
    ensures Depth(Round, texts, |texts|) == 0
  {}

  lemma NoPairs(item: Item, toks: seq<Token>, docs: map<nat, string>, i: nat, t: Tables)
    requires Spells(toks, i, Texts(item)) && (item.Overload? || item.Constant? || item.Pattern? || item.Mark? || item.Statement?)
    ensures Effect(item, toks, docs, i, t) == t
  {
    hide Texts;
    assert t.lists + [] == t.lists;
  }

  lemma OverloadTexts(item: Item)
    requires item.Overload?
    ensures Texts(item) == HowTexts(item.how) + DeclarationTexts(item.generator, item.name, item.head)
    ensures Texts(item) == HowTexts(item.how) + (["function"] + (If(item.generator, "*") + If(item.name != "", item.name) + HeadTexts(item.head)))
    ensures DeclarationTexts(item.generator, item.name, item.head)
         == ["function"] + (If(item.generator, "*") + If(item.name != "", item.name) + HeadTexts(item.head))
  {
    hide HeadTexts, HowTexts;
    Associated(["function"], If(item.generator, "*"), If(item.name != "", item.name), HeadTexts(item.head));
    assert HowTexts(item.how) + If(false, "async") == HowTexts(item.how);
    Associated4(HowTexts(item.how), ["function"], If(item.generator, "*"), If(item.name != "", item.name), HeadTexts(item.head));
  }

  lemma Associated<T>(a: seq<T>, b: seq<T>, c: seq<T>, d: seq<T>)
    ensures a + b + c + d == a + (b + c + d)
  {}

  lemma Associated4<T>(h: seq<T>, a: seq<T>, b: seq<T>, c: seq<T>, d: seq<T>)
    ensures h + a + b + c + d == h + (a + b + c + d)
  {}

  /** A declaration without a body, as an overload has none. */
  lemma OverloadPasses(toks: seq<Token>, docs: map<nat, string>, i: nat, item: Item, t: Tables, s: nat) returns (rest: nat)
    requires item.Overload? && ItemFits(item, toks, i) && Plenty(toks, i, s)
    ensures Passes(toks, docs, i, t, s, i + |Texts(item)|, Effect(item, toks, docs, i, t), rest)
  {
    hide FunctionAt, HeadTexts, DeclarationTexts, HowTexts, Texts, Passes, Plenty, Effect, Spells, If, IsDeclarationHead, NameOrNone, Inert;
    OverloadTexts(item);
    var how := item.how;
    var j := i + |HowTexts(how)|;
    HowSpelled(toks, i, how, DeclarationTexts(item.generator, item.name, item.head));
    var tail := If(item.generator, "*") + If(item.name != "", item.name) + HeadTexts(item.head);
    SpellsBoth(toks, j, ["function"], tail);
    SpelledOne(toks, j, "function");
    forall anonymous, s: nat | s > 6 * |toks|
      ensures !FunctionAt(toks, j, anonymous, s).ok
    {
      OverloadSpelled(toks, j, item.generator, item.name, item.head, s);
      FunctionIsDeclaration(toks, j, anonymous, s);
    }
    rest := KeywordThenInert(toks, docs, i, how, tail, t, s);
    NoPairs(item, toks, docs, i, t);
  }

  lemma FunctionIsDeclaration(toks: seq<Token>, j: nat, anonymous: bool, s: nat)
    requires At(toks, j) == "function"
    ensures FunctionAt(toks, j, anonymous, s) == Declaration(toks, j, s)
  {}

  lemma ConstantTexts(item: Item)
    requires item.Constant?
    ensures var lead := BindingLead(false, item.keyword, item.name, item.annotation);
            var tail := [item.name] + After(":", item.annotation) + StartTexts(item.start);
            Texts(item) == If(item.exports, "export") + (lead + StartTexts(item.start)) && lead + StartTexts(item.start) == [item.keyword] + tail
  {
    hide After, StartTexts, If;
    BindingParts(item.exports, item.keyword, item.name, item.annotation);
    NoText("export");
    PairThen(item.keyword, item.name, After(":", item.annotation), StartTexts(item.start));
  }

  lemma PairThen<T>(a: T, b: T, c: seq<T>, d: seq<T>)
    ensures [] + [a, b] + c + d == [a] + ([b] + c + d)
  {}

  /** A binding that is none of a function. */
  lemma ConstantPasses(toks: seq<Token>, docs: map<nat, string>, i: nat, item: Item, t: Tables, s: nat) returns (rest: nat)
    requires item.Constant? && ItemFits(item, toks, i) && Plenty(toks, i, s)
    ensures Passes(toks, docs, i, t, s, i + |Texts(item)|, Effect(item, toks, docs, i, t), rest)
  {
    hide FunctionAt, BindingLead, HowTexts, Texts, Passes, Plenty, Effect, Spells, If, StartTexts, StartFits, AnnotationFits, BindingKeyword, IsName, Inert;
    ConstantTexts(item);
    IsHowTexts(item.exports);
    var how := if item.exports then Exporting else Private;
    var j := i + |HowTexts(how)|;
    var lead := BindingLead(false, item.keyword, item.name, item.annotation);
    var tail := [item.name] + After(":", item.annotation) + StartTexts(item.start);
    HowSpelled(toks, i, how, lead + StartTexts(item.start));
    SpellsBoth(toks, j, lead, StartTexts(item.start));
    SpellsBoth(toks, j, [item.keyword], tail);
    SpelledOne(toks, j, item.keyword);
    forall anonymous, s: nat | s > 6 * |toks|
      ensures !FunctionAt(toks, j, anonymous, s).ok
    {
      ConstantSpelled(toks, j, item.keyword, item.name, item.annotation, item.start, s);
      KeywordIsFirst(toks, j, anonymous, s);
    }
    rest := KeywordThenInert(toks, docs, i, how, tail, t, s);
    NoPairs(item, toks, docs, i, t);
  }

  lemma PatternFits(item: Item, toks: seq<Token>, i: nat)
    requires item.Pattern? && ItemFits(item, toks, i)
    ensures Texts(item) == If(item.exports, "export") + [item.keyword] && Spells(toks, i, Texts(item))
    ensures BindingKeyword(item.keyword) && !IsName(At(toks, i + |If(item.exports, "export")| + 1))
  {
    hide IsName, BindingKeyword, Spells;
  }

  lemma NoNameNoBinding(toks: seq<Token>, j: nat, anonymous: bool, s: nat)
    requires BindingKeyword(At(toks, j)) && !IsName(At(toks, j + 1))
    ensures !FunctionAt(toks, j, anonymous, s).ok
  {
    hide IsName;
  }

  /** A binding of a pattern. */
  lemma PatternPasses(toks: seq<Token>, docs: map<nat, string>, i: nat, item: Item, t: Tables, s: nat) returns (rest: nat)
    requires item.Pattern? && ItemFits(item, toks, i) && Plenty(toks, i, s)
    ensures Passes(toks, docs, i, t, s, i + |Texts(item)|, Effect(item, toks, docs, i, t), rest)
  {
    hide FunctionAt, HowTexts, Passes, Plenty, Effect, Spells, If, BindingKeyword, IsName, ItemFits, Texts;
    PatternFits(item, toks, i);
    IsHowTexts(item.exports);
    var how := if item.exports then Exporting else Private;
    var j := i + |HowTexts(how)|;
    HowSpelled(toks, i, how, [item.keyword]);
    SpelledOne(toks, j, item.keyword);
    forall anonymous, s: nat | s > 6 * |toks|
      ensures !FunctionAt(toks, j, anonymous, s).ok
    {
      NoNameNoBinding(toks, j, anonymous, s);
    }
    rest := KeywordPasses(toks, docs, i, how, t, s);
    NoPairs(item, toks, docs, i, t);
  }

  /** An export of anything else: the keywords are passed. */
  lemma MarkPasses(toks: seq<Token>, docs: map<nat, string>, i: nat, item: Item, t: Tables, s: nat) returns (rest: nat)
    requires item.Mark? && ItemFits(item, toks, i) && Plenty(toks, i, s)
    ensures Passes(toks, docs, i, t, s, i + |Texts(item)|, Effect(item, toks, docs, i, t), rest)
  {
    hide HowTexts, Plenty, Effect, Spells, DefaultName, Declaration, Binding, Arrow, TopLevel, ParseFrom, Record;
    var how := if item.byDefault then ByDefault else Exporting;
    HowLength(how);
    assert HowTexts(how) + [] == HowTexts(how);
    HowSpelled(toks, i, how, []);
    SpelledFirst(toks, i, how);
    if item.byDefault {
      MarksNoName(toks, i + 2);
    }
    rest := TopStep(toks, docs, i, t, s);
    TopFunction(toks, docs, i, how, t, s - 1);
    NoPairs(item, toks, docs, i, t);
  }

  lemma MarksNoName(toks: seq<Token>, j: nat)
    requires var t := At(toks, j); !IsName(t) || t == "class" || (j + 1 < |toks| && At(toks, j + 1) != ";" && !StartsLine(toks, j + 1))
    ensures !DefaultName(toks, j)
  {
    hide IsName;
  }

  lemma SpelledFirst(toks: seq<Token>, i: nat, how: How)
    requires Spells(toks, i, HowTexts(how)) && !how.Private?
    ensures i < |toks|
  {}

  /** Anything else outside of functions. */
  lemma StatementPasses(toks: seq<Token>, docs: map<nat, string>, i: nat, item: Item, t: Tables, s: nat) returns (rest: nat)
    requires item.Statement? && ItemFits(item, toks, i) && Plenty(toks, i, s)
    ensures Passes(toks, docs, i, t, s, i + |Texts(item)|, Effect(item, toks, docs, i, t), rest)
  {
    hide Plenty, Effect, Inert, ParseFrom;
    InertIsFlat(item.texts);
    rest := InertSpelled(toks, docs, i, item.texts, |item.texts|, t, s);
    NoPairs(item, toks, docs, i, t);
  }

  /** Whatever the item, the parse goes on after it, and the tables change by what it exports or keeps. */
  lemma ItemPasses(toks: seq<Token>, docs: map<nat, string>, i: nat, item: Item, t: Tables, s: nat) returns (rest: nat)
    requires ItemFits(item, toks, i) && Plenty(toks, i, s)
    ensures Spells(toks, i, Texts(item))
    ensures Passes(toks, docs, i, t, s, i + |Texts(item)|, Effect(item, toks, docs, i, t), rest)
  {
    hide Texts, Plenty, Effect, Passes, Spells, DeclarationFits, ArrowFits, AnnotationFits, BindingKeyword, IsName, Inert, StartFits, DefaultName;
    match item
    case Declared(_, _, _, _, _, _) => rest := DeclaredPasses(toks, docs, i, item, t, s);
    case Bound(_, _, _, _, _) => rest := BoundPasses(toks, docs, i, item, t, s);
    case ArrowDefault(_, _, _) => rest := ArrowDefaultPasses(toks, docs, i, item, t, s);
    case NameDefault(_) => rest := NameDefaultPasses(toks, docs, i, item, t, s);
    case List(_, _, _) => rest := ListPasses(toks, docs, i, item, t, s);
    case Overload(_, _, _, _) => rest := OverloadPasses(toks, docs, i, item, t, s);
    case Constant(_, _, _, _, _) => rest := ConstantPasses(toks, docs, i, item, t, s);
    case Pattern(_, _) => rest := PatternPasses(toks, docs, i, item, t, s);
    case Mark(_) => rest := MarkPasses(toks, docs, i, item, t, s);
    case Statement(_) => rest := StatementPasses(toks, docs, i, item, t, s);
  }

  // ----- all items -----

  /** The tables after the first k items. */
  ghost function TablesAt(items: seq<Item>, toks: seq<Token>, docs: map<nat, string>, k: nat): Tables
    requires k <= |items| && Fits(items, toks)
  {
    if k == 0 then NO_TABLES
    else
      assert ItemFits(items[k - 1], toks, Place(items, k - 1));
      Effect(items[k - 1], toks, docs, Place(items, k - 1), TablesAt(items, toks, docs, k - 1))
  }

  lemma {:induction false} ItemsPass(items: seq<Item>, toks: seq<Token>, docs: map<nat, string>, k: nat, s: nat) returns (rest: nat)
    requires k <= |items| && Fits(items, toks) && Plenty(toks, 0, s)
    ensures Passes(toks, docs, 0, NO_TABLES, s, Place(items, k), TablesAt(items, toks, docs, k), rest)
  {
    hide ItemFits, Plenty, ParseFrom, Effect, Texts;
    rest := s;
    if k > 0 {
      var before := ItemsPass(items, toks, docs, k - 1, s);
      assert ItemFits(items[k - 1], toks, Place(items, k - 1));
      rest := ItemPasses(toks, docs, Place(items, k - 1), items[k - 1], TablesAt(items, toks, docs, k - 1), before);
    }
  }

  /** A parse that is not cut ends with the tables of all items. */
  lemma ParseIs(items: seq<Item>, toks: seq<Token>, docs: map<nat, string>, steps: nat)
    requires Fits(items, toks) && !Parse(toks, docs, steps).cut
    ensures var t := TablesAt(items, toks, docs, |items|); Parse(toks, docs, steps).functions == WithLists(t.exported, t.locals, t.lists)
  {
    hide ParseFrom, WithLists, TablesAt, Fits;
    var enough := StepCost(toks) * |toks| + 1;
    var s := if steps > enough then steps else enough;
    BudgetInvisible(toks, docs, steps, s);
    assert Plenty(toks, 0, s);
    ParseEnough(toks, docs, s);
    EndsWhole(items, toks, docs, s);
  }

  lemma EndsWhole(items: seq<Item>, toks: seq<Token>, docs: map<nat, string>, s: nat)
    requires Fits(items, toks) && Plenty(toks, 0, s)
    ensures ParseFrom(toks, docs, 0, 0, NO_TABLES, s).tables == TablesAt(items, toks, docs, |items|)
    ensures ParseFrom(toks, docs, 0, 0, NO_TABLES, s).whole
  {
    hide TablesAt, ItemFits, Plenty;
    var rest := ItemsPass(items, toks, docs, |items|, s);
  }

  // ----- what the tables hold -----

  lemma NamesAre(item: Item)
    ensures ExportsAs(item).Some? || KeepsAs(item).Some? ==> FunctionOf(item).Some?
    ensures ExportsAs(item).Some? ==> ExportsAs(item).value == FunctionOf(item).value.name
    ensures KeepsAs(item).Some? ==> KeepsAs(item).value == FunctionOf(item).value.name
    ensures ExportsAs(item).None? || KeepsAs(item).None?
  {}

  /** The exports among the first n items, the last of each name. */
  ghost predicate HoldsExports(m: map<string, ScriptFunction>, items: seq<Item>, toks: seq<Token>, docs: map<nat, string>, n: nat)
    requires n <= |items| && Fits(items, toks)
  {
    && (forall name :: name in m ==> exists k :: 0 <= k < n && LastExport(items, n, name, k))
    && (forall k, name :: 0 <= k < n && LastExport(items, n, name, k) ==>
          FunctionOf(items[k]).Some? && name in m && m[name] == ToldAt(items, toks, docs, k))
  }

  /** The functions the first n items keep, the last of each name. */
  ghost predicate HoldsKept(m: map<string, ScriptFunction>, items: seq<Item>, toks: seq<Token>, docs: map<nat, string>, n: nat)
    requires n <= |items| && Fits(items, toks)
  {
    && (forall name :: name in m ==> exists k :: 0 <= k < n && LastKept(items, n, name, k))
    && (forall k, name :: 0 <= k < n && LastKept(items, n, name, k) ==>
          FunctionOf(items[k]).Some? && name in m && m[name] == ToldAt(items, toks, docs, k))
  }

  /** What one more item does to the tables. */
  lemma TablesNext(items: seq<Item>, toks: seq<Token>, docs: map<nat, string>, n: nat)
    requires n < |items| && Fits(items, toks)
    ensures var t := TablesAt(items, toks, docs, n); var u := TablesAt(items, toks, docs, n + 1); var item := items[n];
            && u.lists == t.lists + Pairs(item)
            && (ExportsAs(item).Some? ==> FunctionOf(item).Some?) && (KeepsAs(item).Some? ==> FunctionOf(item).Some?)
            && u.exported == (if ExportsAs(item).Some? then t.exported[ExportsAs(item).value := ToldAt(items, toks, docs, n)] else t.exported)
            && u.locals == (if KeepsAs(item).Some? then t.locals[KeepsAs(item).value := ToldAt(items, toks, docs, n)] else t.locals)
  {
    hide Told, Texts, ItemFits, FunctionTexts;
    assert ItemFits(items[n], toks, Place(items, n));
    var t := TablesAt(items, toks, docs, n);
    assert t.lists + [] == t.lists;
    NamesAre(items[n]);
    if FunctionOf(items[n]).Some? {
      FitsSpells(items[n], toks, Place(items, n));
      ToldName(FunctionOf(items[n]).value, toks, docs, Place(items, n));
    }
  }

  lemma FitsSpells(item: Item, toks: seq<Token>, i: nat)
    requires ItemFits(item, toks, i) && FunctionOf(item).Some?
    ensures Spells(toks, i, FunctionTexts(FunctionOf(item).value))
  {}

  lemma LastExportNext(items: seq<Item>, n: nat, name: string, k: nat)
    requires n < |items|
    ensures LastExport(items, n + 1, name, k) <==> if ExportsAs(items[n]) == Some(name) then k == n else k < n && LastExport(items, n, name, k)
  {
    hide ExportsAs;
  }

  lemma LastKeptNext(items: seq<Item>, n: nat, name: string, k: nat)
    requires n < |items|
    ensures LastKept(items, n + 1, name, k) <==> if KeepsAs(items[n]) == Some(name) then k == n else k < n && LastKept(items, n, name, k)
  {
    hide KeepsAs;
  }

  lemma {:induction false} ExportsHeld(items: seq<Item>, toks: seq<Token>, docs: map<nat, string>, n: nat)
    requires n <= |items| && Fits(items, toks)
    ensures HoldsExports(TablesAt(items, toks, docs, n).exported, items, toks, docs, n)
  {
    hide TablesAt, ToldAt, Fits, LastExport, ExportsAs, KeepsAs, FunctionOf;
    if n == 0 {
      NothingAt(items, toks, docs);
    } else {
      ExportsHeld(items, toks, docs, n - 1);
      TablesNext(items, toks, docs, n - 1);
      var m := TablesAt(items, toks, docs, n).exported;
      forall name | name in m
        ensures exists k :: 0 <= k < n && LastExport(items, n, name, k)
      {
        if ExportsAs(items[n - 1]) == Some(name) {
          LastExportNext(items, n - 1, name, n - 1);
        } else {
          var k :| 0 <= k < n - 1 && LastExport(items, n - 1, name, k);
          LastExportNext(items, n - 1, name, k);
        }
      }
      forall k, name | 0 <= k < n && LastExport(items, n, name, k)
        ensures FunctionOf(items[k]).Some? && name in m && m[name] == ToldAt(items, toks, docs, k)
      {
        LastExportNext(items, n - 1, name, k);
      }
    }
  }

  lemma {:induction false} KeptHeld(items: seq<Item>, toks: seq<Token>, docs: map<nat, string>, n: nat)
    requires n <= |items| && Fits(items, toks)
    ensures HoldsKept(TablesAt(items, toks, docs, n).locals, items, toks, docs, n)
  {
    hide TablesAt, ToldAt, Fits, LastKept, ExportsAs, KeepsAs, FunctionOf;
    if n == 0 {
      NothingAt(items, toks, docs);
    } else {
      KeptHeld(items, toks, docs, n - 1);
      TablesNext(items, toks, docs, n - 1);
      var m := TablesAt(items, toks, docs, n).locals;
      forall name | name in m
        ensures exists k :: 0 <= k < n && LastKept(items, n, name, k)
      {
        if KeepsAs(items[n - 1]) == Some(name) {
          LastKeptNext(items, n - 1, name, n - 1);
        } else {
          var k :| 0 <= k < n - 1 && LastKept(items, n - 1, name, k);
          LastKeptNext(items, n - 1, name, k);
        }
      }
      forall k, name | 0 <= k < n && LastKept(items, n, name, k)
        ensures FunctionOf(items[k]).Some? && name in m && m[name] == ToldAt(items, toks, docs, k)
      {
        LastKeptNext(items, n - 1, name, k);
      }
    }
  }

  lemma NothingAt(items: seq<Item>, toks: seq<Token>, docs: map<nat, string>)
    requires Fits(items, toks)
    ensures TablesAt(items, toks, docs, 0) == NO_TABLES
  {}

  lemma {:induction false} ListsHeld(items: seq<Item>, toks: seq<Token>, docs: map<nat, string>, n: nat)
    requires n <= |items| && Fits(items, toks)
    ensures TablesAt(items, toks, docs, n).lists == Lists(items, n)
  {
    hide TablesAt, Fits, Pairs, ExportsAs, KeepsAs, ToldAt, FunctionOf;
    if n == 0 {
      NothingAt(items, toks, docs);
    } else {
      ListsHeld(items, toks, docs, n - 1);
      TablesNext(items, toks, docs, n - 1);
    }
  }

  // ----- export lists -----

  /** Pair p gives the name to a function of the table. */
  predicate PairGives(locals: map<string, ScriptFunction>, lists: seq<(string, string)>, name: string, p: nat) {
    p < |lists| && lists[p].1 == name && lists[p].0 in locals
  }

  /** Pair p is the last that gives the name. */
  predicate LastPair(locals: map<string, ScriptFunction>, lists: seq<(string, string)>, name: string, p: nat) {
    PairGives(locals, lists, name, p) && forall q :: p < q < |lists| ==> !PairGives(locals, lists, name, q)
  }

  /** The last pair that gives a name decides. */
  lemma {:induction false} LastPairGives(exported: map<string, ScriptFunction>, locals: map<string, ScriptFunction>, lists: seq<(string, string)>, name: string, p: nat)
    requires LastPair(locals, lists, name, p)
    ensures var r := WithLists(exported, locals, lists); name in r && r[name] == locals[lists[p].0].(name := name)
    decreases |lists|
  {
    var pair, more := lists[0], lists[1..];
    var next := if pair.0 in locals then exported[pair.1 := locals[pair.0].(name := pair.1)] else exported;
    if p == 0 {
      forall q: nat
        ensures !PairGives(locals, more, name, q)
      {
        assert q < |more| ==> !PairGives(locals, lists, name, q + 1);
      }
      NoPairGives(next, locals, more, name);
    } else {
      forall q | p - 1 < q < |more|
        ensures !PairGives(locals, more, name, q)
      {
        assert !PairGives(locals, lists, name, q + 1);
      }
      LastPairGives(next, locals, more, name, p - 1);
    }
  }

  /** A name that no pair gives is as before. */
  lemma {:induction false} NoPairGives(exported: map<string, ScriptFunction>, locals: map<string, ScriptFunction>, lists: seq<(string, string)>, name: string)
    requires forall p: nat :: !PairGives(locals, lists, name, p)
    ensures var r := WithLists(exported, locals, lists); (name in r <==> name in exported) && (name in r ==> r[name] == exported[name])
    decreases |lists|
  {
    if lists != [] {
      var pair, more := lists[0], lists[1..];
      var next := if pair.0 in locals then exported[pair.1 := locals[pair.0].(name := pair.1)] else exported;
      assert !PairGives(locals, lists, name, 0);
      forall q: nat
        ensures !PairGives(locals, more, name, q)
      {
        assert !PairGives(locals, lists, name, q + 1);
      }
      NoPairGives(next, locals, more, name);
    }
  }

  // ----- the exports of a module -----

  /** A list gives a name when one of its locals is kept. */
  lemma GivesByPair(items: seq<Item>, toks: seq<Token>, docs: map<nat, string>, name: string, p: nat)
    requires Fits(items, toks)
    ensures var t := TablesAt(items, toks, docs, |items|); ListGives(items, name, p) <==> PairGives(t.locals, t.lists, name, p)
  {
    hide TablesAt, Fits, KeepsAs, FunctionOf, Lists, ToldAt;
    KeptHeld(items, toks, docs, |items|);
    ListsHeld(items, toks, docs, |items|);
    var t := TablesAt(items, toks, docs, |items|);
    if PairGives(t.locals, t.lists, name, p) {
      var k :| 0 <= k < |items| && LastKept(items, |items|, t.lists[p].0, k);
    }
    if ListGives(items, name, p) {
      var j :| 0 <= j < |items| && KeepsAs(items[j]) == Some(t.lists[p].0);
      var k := LastKeptIs(items, |items|, t.lists[p].0, j);
    }
  }

  lemma LastKeptIs(items: seq<Item>, n: nat, name: string, j: nat) returns (k: nat)
    requires j < n <= |items| && KeepsAs(items[j]) == Some(name)
    ensures LastKept(items, n, name, k)
    decreases n
  {
    hide KeepsAs;
    if KeepsAs(items[n - 1]) == Some(name) {
      k := n - 1;
    } else {
      k := LastKeptIs(items, n - 1, name, j);
    }
  }

  lemma LastExportIs(items: seq<Item>, n: nat, name: string, j: nat) returns (k: nat)
    requires j < n <= |items| && ExportsAs(items[j]) == Some(name)
    ensures LastExport(items, n, name, k)
    decreases n
  {
    hide ExportsAs;
    if ExportsAs(items[n - 1]) == Some(name) {
      k := n - 1;
    } else {
      k := LastExportIs(items, n - 1, name, j);
    }
  }

  lemma {:induction false} LastGivesIs(items: seq<Item>, name: string, p: nat, n: nat) returns (last: nat)
    requires ListGives(items, name, p) && p < n <= |Lists(items, |items|)|
    requires forall q :: n <= q < |Lists(items, |items|)| ==> !ListGives(items, name, q)
    ensures LastGives(items, name, last)
  {
    hide ListGives, Lists;
    if ListGives(items, name, n - 1) {
      last := n - 1;
    } else {
      last := LastGivesIs(items, name, p, n - 1);
    }
  }

  /** The last export of a name is in the table of exports. */
  lemma ExportIs(items: seq<Item>, toks: seq<Token>, docs: map<nat, string>, name: string, k: nat)
    requires Fits(items, toks) && LastExport(items, |items|, name, k)
    ensures var m := TablesAt(items, toks, docs, |items|).exported;
            && k < |items| && FunctionOf(items[k]).Some? && name in m
            && m[name] == ToldAt(items, toks, docs, k) && m[name].name == name
  {
    hide TablesAt, Fits, FunctionOf, ToldAt, LastExport;
    ExportsHeld(items, toks, docs, |items|);
    LastBelow(items, name, k);
    ToldAtName(items, toks, docs, name, k);
  }

  /** The last function kept under a name is in the table of locals. */
  lemma KeptIs(items: seq<Item>, toks: seq<Token>, docs: map<nat, string>, name: string, k: nat)
    requires Fits(items, toks) && LastKept(items, |items|, name, k)
    ensures var m := TablesAt(items, toks, docs, |items|).locals;
            k < |items| && FunctionOf(items[k]).Some? && name in m && m[name] == ToldAt(items, toks, docs, k)
  {
    hide TablesAt, Fits, FunctionOf, ToldAt, LastKept;
    KeptHeld(items, toks, docs, |items|);
    LastBelow(items, name, k);
  }

  /** Pairs of the lists give names as pairs of the tables do. */
  lemma PairsGive(items: seq<Item>, toks: seq<Token>, docs: map<nat, string>, name: string)
    requires Fits(items, toks)
    ensures var t := TablesAt(items, toks, docs, |items|);
            && t.lists == Lists(items, |items|)
            && forall p: nat :: ListGives(items, name, p) <==> PairGives(t.locals, t.lists, name, p)
  {
    hide TablesAt, Fits, Lists, ListGives, PairGives;
    ListsHeld(items, toks, docs, |items|);
    forall p: nat
      ensures var t := TablesAt(items, toks, docs, |items|); ListGives(items, name, p) <==> PairGives(t.locals, t.lists, name, p)
    {
      GivesByPair(items, toks, docs, name, p);
    }
  }

  lemma GivesByList(items: seq<Item>, toks: seq<Token>, docs: map<nat, string>, name: string, p: nat, k: nat)
    requires Fits(items, toks) && LastGives(items, name, p) && LastKept(items, |items|, Lists(items, |items|)[p].0, k)
    ensures k < |items| && FunctionOf(items[k]).Some?
    ensures var t := TablesAt(items, toks, docs, |items|); var r := WithLists(t.exported, t.locals, t.lists);
            name in r && r[name] == ToldAt(items, toks, docs, k).(name := name)
  {
    hide TablesAt, Fits, FunctionOf, Lists, ToldAt, ListGives, LastKept, WithLists, PairGives;
    var t := TablesAt(items, toks, docs, |items|);
    PairsGive(items, toks, docs, name);
    KeptIs(items, toks, docs, t.lists[p].0, k);
    LastPairGives(t.exported, t.locals, t.lists, name, p);
  }

  lemma GivesByExport(items: seq<Item>, toks: seq<Token>, docs: map<nat, string>, name: string, k: nat)
    requires Fits(items, toks) && (forall p: nat :: !ListGives(items, name, p)) && LastExport(items, |items|, name, k)
    ensures k < |items| && FunctionOf(items[k]).Some?
    ensures var t := TablesAt(items, toks, docs, |items|); var r := WithLists(t.exported, t.locals, t.lists);
            name in r && r[name] == ToldAt(items, toks, docs, k).(name := name)
  {
    hide TablesAt, Fits, FunctionOf, Lists, ToldAt, ListGives, LastExport, WithLists, PairGives;
    var t := TablesAt(items, toks, docs, |items|);
    PairsGive(items, toks, docs, name);
    NoPairGives(t.exported, t.locals, t.lists, name);
    ExportIs(items, toks, docs, name, k);
  }

  /** What a name of the finished tables stands for. */
  lemma GivesIs(items: seq<Item>, toks: seq<Token>, docs: map<nat, string>, name: string, k: nat)
    requires Fits(items, toks) && Gives(items, name, k)
    ensures k < |items| && FunctionOf(items[k]).Some?
    ensures var t := TablesAt(items, toks, docs, |items|); var r := WithLists(t.exported, t.locals, t.lists);
            name in r && r[name] == ToldAt(items, toks, docs, k).(name := name)
  {
    hide TablesAt, Fits, FunctionOf, Lists, ToldAt, ListGives, LastKept, LastExport, WithLists;
    if p: nat :| LastGives(items, name, p) && LastKept(items, |items|, Lists(items, |items|)[p].0, k) {
      GivesByList(items, toks, docs, name, p, k);
    } else {
      GivesByExport(items, toks, docs, name, k);
    }
  }

  lemma LastBelow(items: seq<Item>, name: string, k: nat)
    ensures LastKept(items, |items|, name, k) || LastExport(items, |items|, name, k) ==> k < |items|
  {}

  lemma ToldAtName(items: seq<Item>, toks: seq<Token>, docs: map<nat, string>, name: string, k: nat)
    requires Fits(items, toks) && LastExport(items, |items|, name, k) && FunctionOf(items[k]).Some?
    ensures ToldAt(items, toks, docs, k).name == name
  {
    hide Told, Texts, ItemFits, FunctionTexts;
    assert ItemFits(items[k], toks, Place(items, k));
    NamesAre(items[k]);
    FitsSpells(items[k], toks, Place(items, k));
    ToldName(FunctionOf(items[k]).value, toks, docs, Place(items, k));
  }

  /** Every name of the finished tables is given by some item. */
  lemma GivenBySome(items: seq<Item>, toks: seq<Token>, docs: map<nat, string>, name: string) returns (k: nat)
    requires Fits(items, toks)
    requires var t := TablesAt(items, toks, docs, |items|); name in WithLists(t.exported, t.locals, t.lists)
    ensures Gives(items, name, k)
  {
    hide TablesAt, Fits, KeepsAs, ExportsAs, FunctionOf, Lists, ToldAt, LastKept, LastExport, WithLists, PairGives;
    var t := TablesAt(items, toks, docs, |items|);
    PairsGive(items, toks, docs, name);
    if p: nat :| ListGives(items, name, p) {
      var last := LastGivesIs(items, name, p, |Lists(items, |items|)|);
      var j :| 0 <= j < |items| && KeepsAs(items[j]) == Some(Lists(items, |items|)[last].0);
      k := LastKeptIs(items, |items|, Lists(items, |items|)[last].0, j);
    } else {
      NoPairGives(t.exported, t.locals, t.lists, name);
      ExportsHeld(items, toks, docs, |items|);
      k :| 0 <= k < |items| && LastExport(items, |items|, name, k);
    }
  }

  /**
   A module exports exactly what its items give: a parse that is not cut has a function under a
   name exactly when some item gives it that name, and the function is the one that is written there.
   */
  lemma ModuleExports(items: seq<Item>, toks: seq<Token>, docs: map<nat, string>, steps: nat)
    requires Fits(items, toks) && !Parse(toks, docs, steps).cut
    ensures var r := Parse(toks, docs, steps).functions;
            && (forall name :: name in r <==> exists k: nat :: Gives(items, name, k))
            && (forall name, k: nat :: Gives(items, name, k) ==>
                  k < |items| && FunctionOf(items[k]).Some? && name in r && r[name] == ToldAt(items, toks, docs, k).(name := name))
  {
    hide Parse, TablesAt, Fits, FunctionOf, ToldAt, WithLists, Gives;
    ParseIs(items, toks, docs, steps);
    var r := Parse(toks, docs, steps).functions;
    forall name | name in r
      ensures exists k: nat :: Gives(items, name, k)
    {
      var k := GivenBySome(items, toks, docs, name);
    }
    forall name, k: nat | Gives(items, name, k)
      ensures k < |items| && FunctionOf(items[k]).Some? && name in r && r[name] == ToldAt(items, toks, docs, k).(name := name)
    {
      GivesIs(items, toks, docs, name, k);
    }
  }

  /** The names alone: those that items export themselves, and those that lists give to functions the module keeps. */
  lemma ExportedNames(items: seq<Item>, toks: seq<Token>, docs: map<nat, string>, steps: nat, name: string)
    requires Fits(items, toks) && !Parse(toks, docs, steps).cut
    ensures name in Parse(toks, docs, steps).functions <==>
            || (exists k :: 0 <= k < |items| && ExportsAs(items[k]) == Some(name))
            || (exists p: nat :: ListGives(items, name, p))
  {
    hide Parse, Fits, ExportsAs, KeepsAs, FunctionOf, Lists, ToldAt, LastKept;
    ModuleExports(items, toks, docs, steps);
    if p: nat :| ListGives(items, name, p) {
      var last := LastGivesIs(items, name, p, |Lists(items, |items|)|);
      var j :| 0 <= j < |items| && KeepsAs(items[j]) == Some(Lists(items, |items|)[last].0);
      var k := LastKeptIs(items, |items|, Lists(items, |items|)[last].0, j);
      assert Gives(items, name, k);
    } else if k :| 0 <= k < |items| && ExportsAs(items[k]) == Some(name) {
      var last := LastExportIs(items, |items|, name, k);
      assert Gives(items, name, last);
    }
  }
}

/**
 What stands in a TS/JS module, as it is written: functions, bindings, export lists, and everything
 that is none of these, with what each exports.
 */
module ScriptItems {
  import opened Json
  import opened ScriptParse
  import opened ScriptScans

  // ----- functions -----

  /** Type parameters, parameters and return type, or the one name of an arrow function. */
  datatype Head = Listed(types: Option<seq<string>>, params: seq<string>, result: Option<seq<string>>) | Bare(param: string)

  /** A body in braces, or the expression of an arrow function. */
  datatype Body = Block(texts: seq<string>) | Expression(texts: seq<string>)

  function TypesTexts(types: Option<seq<string>>): seq<string> {
    match types
    case None => []
    case Some(t) => ["<"] + t + [">"]
  }

  /** A mark with what follows it, when it is there. */
  function After(mark: string, texts: Option<seq<string>>): seq<string> {
    match texts
    case None => []
    case Some(t) => [mark] + t
  }

  function If(present: bool, text: string): seq<string> {
    if present then [text] else []
  }

  function HeadTexts(h: Head): (texts: seq<string>)
    ensures texts != []
  {
    match h
    case Bare(param) => [param]
    case Listed(types, params, result) => TypesTexts(types) + (["("] + params + [")"]) + After(":", result)
  }

  function BodyTexts(b: Body): seq<string> {
    if b.Block? then ["{"] + b.texts + ["}"] else b.texts
  }

  /** A return type: an object type may lead it. */
  ghost predicate ReturnTexts(r: seq<string>) {
    && r != []
    && if r[0] == "{" then exists n :: 2 <= n <= |r| && Leads(r, n) else TypeTexts(r)
  }

  predicate Leads(r: seq<string>, n: nat)
    requires 2 <= n <= |r|
  {
    Closes(r[n - 1]) && Balanced(Round, r[1..n - 1]) && TypeTexts(r[n..])
  }

  ghost predicate IsDeclarationHead(h: Head) {
    && h.Listed? && (h.types.Some? ==> AngleTexts(h.types.value)) && Balanced(Round, h.params)
    && (h.result.Some? ==> ReturnTexts(h.result.value))
  }

  predicate IsArrowHead(h: Head) {
    match h
    case Bare(param) => IsName(param) && param != "function"
    case Listed(types, params, result) =>
      && (types.Some? ==> AngleTexts(types.value)) && Balanced(Round, params)
      && (result.Some? ==> AnnotationTexts(result.value, "=>"))
  }

  predicate IsBody(b: Body) {
    if b.Block? then Balanced(Round, b.texts) else ExpressionTexts(b.texts)
  }

  /** One function as it is written: what leads it, its head, perhaps an arrow, and its body. */
  datatype Function = Function(name: string, async: bool, generator: bool, lead: seq<string>, head: Head, arrow: bool, body: Body)

  function FunctionTexts(f: Function): (texts: seq<string>)
    ensures texts != []
  {
    f.lead + HeadTexts(f.head) + If(f.arrow, "=>") + BodyTexts(f.body)
  }

  /** Where the parameters of a function start within its head. */
  function ParamsAt(h: Head): nat {
    if h.Bare? then 0 else |TypesTexts(h.types)| + 1
  }

  function ParamTexts(h: Head): seq<string> {
    if h.Bare? then [h.param] else h.params
  }

  /** The function as it is reported, when its tokens start at i: everything comes from what is written. */
  function Told(f: Function, toks: seq<Token>, docs: map<nat, string>, i: nat): ScriptFunction
    requires Spells(toks, i, FunctionTexts(f))
  {
    var head := i + |f.lead|;
    var params := head + ParamsAt(f.head);
    ScriptFunction(
      name := f.name,
      line := toks[i].line,
      endLine := toks[i + |FunctionTexts(f)| - 1].line,
      signature := (if f.async then "async " else "") + (if f.generator then "* " else "") + Joined(HeadTexts(f.head)),
      body := Joined(BodyTexts(f.body)),
      sig := toks[head..head + |HeadTexts(f.head)|],
      params := toks[params..params + |ParamTexts(f.head)|],
      bare := f.head.Bare?,
      typeParams := f.head.Listed? && f.head.types.Some?,
      async := f.async,
      generator := f.generator,
      doc := if i in docs then docs[i] else "")
  }

  // ----- items -----

  /** How a declaration is exported. */
  datatype How = Private | Exporting | ByDefault

  /** What a binding is set to: a function expression or an arrow function. */
  datatype Value = FunctionValue(async: bool, generator: bool, inner: string, head: Head, body: Body)
                 | ArrowValue(async: bool, head: Head, body: Body)

  /** The start of an initializer that is no function: none, anything else, or a group in parentheses. */
  datatype Start = NoValue | OtherValue | Group(texts: seq<string>)

  /** One name of an export list, perhaps marked as a type, perhaps renamed. */
  datatype Spec = Spec(typeOnly: bool, local: string, renamed: Option<string>)

  datatype Item =
    | Declared(how: How, async: bool, generator: bool, name: string, head: Head, body: Body)
    | Bound(exports: bool, keyword: string, name: string, annotation: Option<seq<string>>, value: Value)
    | ArrowDefault(async: bool, head: Head, body: Body)
    | NameDefault(name: string)
    | List(specs: seq<Spec>, trailing: bool, reexport: bool)
    | Overload(how: How, generator: bool, name: string, head: Head)
    | Constant(exports: bool, keyword: string, name: string, annotation: Option<seq<string>>, start: Start)
    | Pattern(exports: bool, keyword: string)
    | Mark(byDefault: bool)
    | Statement(texts: seq<string>)

  function HowTexts(how: How): seq<string> {
    match how
    case Private => []
    case Exporting => ["export"]
    case ByDefault => ["export", "default"]
  }

  function DeclarationLead(how: How, async: bool, generator: bool, name: string): seq<string> {
    HowTexts(how) + If(async, "async") + ["function"] + If(generator, "*") + If(name != "", name)
  }

  function BindingLead(exports: bool, keyword: string, name: string, annotation: Option<seq<string>>): seq<string> {
    If(exports, "export") + [keyword, name] + After(":", annotation)
  }

  function ValueLead(v: Value): seq<string> {
    If(v.async, "async") + if v.FunctionValue? then ["function"] + If(v.generator, "*") + If(v.inner != "", v.inner) else []
  }

  /** The function an item declares or binds, under the name it is known by. */
  function FunctionOf(item: Item): Option<Function> {
    match item
    case Declared(how, async, generator, name, head, body) =>
      Some(Function(if how.ByDefault? then "default" else name, async, generator, DeclarationLead(how, async, generator, name), head, false, body))
    case Bound(exports, keyword, name, annotation, value) =>
      Some(Function(name, value.async, value.FunctionValue? && value.generator,
                    BindingLead(exports, keyword, name, annotation) + ["="] + ValueLead(value), value.head, value.ArrowValue?, value.body))
    case ArrowDefault(async, head, body) =>
      Some(Function("default", async, false, ["export", "default"] + If(async, "async"), head, true, body))
    case _ => None
  }

  function SpecTexts(s: Spec): seq<string> {
    If(s.typeOnly, "type") + [s.local] + After("as", match s.renamed case None => None case Some(a) => Some([a]))
  }

  function SpecsTexts(specs: seq<Spec>): seq<string> {
    if specs == [] then []
    else if |specs| == 1 then SpecTexts(specs[0])
    else SpecTexts(specs[0]) + [","] + SpecsTexts(specs[1..])
  }

  function StartTexts(s: Start): seq<string> {
    match s
    case NoValue => []
    case OtherValue => ["="]
    case Group(texts) => ["="] + (["("] + texts + [")"])
  }

  /** The tokens of an item. */
  function Texts(item: Item): seq<string> {
    match item
    case NameDefault(name) => ["export", "default", name]
    case List(specs, trailing, _) => ["export", "{"] + SpecsTexts(specs) + If(trailing, ",") + ["}"]
    case Overload(how, generator, name, head) => DeclarationLead(how, false, generator, name) + HeadTexts(head)
    case Constant(exports, keyword, name, annotation, start) => BindingLead(exports, keyword, name, annotation) + StartTexts(start)
    case Pattern(exports, keyword) => If(exports, "export") + [keyword]
    case Mark(byDefault) => HowTexts(if byDefault then ByDefault else Exporting)
    case Statement(texts) => texts
    case _ => FunctionTexts(FunctionOf(item).value)
  }

  // ----- what may be written -----

  predicate BindingKeyword(t: string) {
    t == "const" || t == "let" || t == "var"
  }

  /** Tokens at which a function may start. */
  predicate MayStart(t: string) {
    t == "export" || t == "function" || BindingKeyword(t)
  }

  /** Tokens outside of all functions: brackets match, and outside them nothing starts a function. */
  predicate Inert(texts: seq<string>) {
    && Balanced(Round, texts)
    && forall m :: 0 <= m < |texts| && Depth(Round, texts, m) == 0 ==> !MayStart(texts[m]) && (texts[m] == "async" ==> m + 1 < |texts|)
  }

  predicate IsSpec(s: Spec) {
    && IsName(s.local) && (s.typeOnly ==> s.local != "as") && (s.renamed.Some? ==> IsName(s.renamed.value))
    && SpecPair(s) != ("type", "type")
  }

  function SpecPair(s: Spec): (string, string) {
    (s.local, if s.renamed.Some? then s.renamed.value else s.local)
  }

  predicate AnnotationFits(annotation: Option<seq<string>>, stop: string, toks: seq<Token>, i: nat) {
    annotation.Some? ==> AnnotationTexts(annotation.value, stop) && Unbroken(Every, toks, i, annotation.value)
  }

  /** An arrow function whose head starts at token i. */
  predicate ArrowFits(head: Head, body: Body, toks: seq<Token>, i: nat) {
    && IsArrowHead(head) && IsBody(body)
    && (head.Listed? ==> AnnotationFits(head.result, "=>", toks, i + |TypesTexts(head.types)| + |head.params| + 3))
    && (body.Expression? ==>
          var at := i + |HeadTexts(head)| + 1;
          Unbroken(Round, toks, at, body.texts) && EndsExpression(toks, at + |body.texts|))
  }

  predicate NameOrNone(name: string) {
    name == "" || IsName(name)
  }

  ghost predicate DeclarationFits(name: string, head: Head, body: Body) {
    NameOrNone(name) && IsDeclarationHead(head) && body.Block? && IsBody(body)
  }

  /** What stands at token k is not the start of a function expression or of an arrow function. */
  predicate StartsNoFunction(toks: seq<Token>, k: nat) {
    var t := At(toks, k);
    && t != "function" && t != "(" && t != "<" && !(IsName(t) && At(toks, k + 1) == "=>")
    && (t == "async" ==> !StartsAsync(toks, k + 1))
  }

  predicate StartsAsync(toks: seq<Token>, k: nat) {
    var t := At(toks, k);
    t == "function" || t == "(" || t == "<" || (IsName(t) && At(toks, k + 1) == "=>")
  }

  /** What follows a binding, at token k, makes it none of a function. */
  predicate StartFits(start: Start, annotation: Option<seq<string>>, toks: seq<Token>, k: nat) {
    match start
    case NoValue =>
      if annotation.Some? then
        k == |toks| || At(toks, k) == ";" || (annotation.value != [] && Breaks(toks, k) && At(toks, k) != "=")
      else At(toks, k) != "=" && At(toks, k) != ":"
    case OtherValue => StartsNoFunction(toks, k)
    case Group(texts) => Balanced(Round, texts) && At(toks, k) != ":" && At(toks, k) != "=>"
  }

  /** The item is a well-formed one and stands at token i, on lines that do not end its parts early. */
  ghost predicate ItemFits(item: Item, toks: seq<Token>, i: nat) {
    var end := i + |Texts(item)|;
    && Spells(toks, i, Texts(item))
    && match item
       case Declared(_, _, _, name, head, body) => DeclarationFits(name, head, body)
       case Bound(exports, keyword, name, annotation, value) =>
         var start := i + |BindingLead(exports, keyword, name, annotation)|;
         && BindingKeyword(keyword) && IsName(name)
         && AnnotationFits(annotation, "=", toks, i + |If(exports, "export")| + 3)
         && (if value.FunctionValue? then DeclarationFits(value.inner, value.head, value.body)
             else ArrowFits(value.head, value.body, toks, start + 1 + |ValueLead(value)|))
       case ArrowDefault(async, head, body) =>
         (async || head.Listed?) && ArrowFits(head, body, toks, i + 2 + |If(async, "async")|)
       case NameDefault(name) =>
         && IsName(name) && name != "function" && name != "async" && name != "class"
         && (end == |toks| || At(toks, end) == ";" || StartsLine(toks, end))
       case List(specs, _, reexport) => (forall s :: s in specs ==> IsSpec(s)) && (reexport <==> At(toks, end) == "from")
       case Overload(_, generator, name, head) =>
         && NameOrNone(name) && IsDeclarationHead(head) && Inert(If(generator, "*") + If(name != "", name) + HeadTexts(head))
         && (if head.result.Some? then At(toks, end) == ";" else At(toks, end) != "{" && At(toks, end) != ":")
       case Constant(exports, keyword, name, annotation, start) =>
         && BindingKeyword(keyword) && IsName(name) && AnnotationFits(annotation, "=", toks, i + |If(exports, "export")| + 3)
         && StartFits(start, annotation, toks, end) && Inert([name] + After(":", annotation) + StartTexts(start))
       case Pattern(_, keyword) => BindingKeyword(keyword) && !IsName(At(toks, end))
       case Mark(byDefault) =>
         var t := At(toks, end);
         && t != "function" && t != "async" && !BindingKeyword(t)
         && (if byDefault then
               t != "(" && t != "<" && (!IsName(t) || t == "class" || (end + 1 < |toks| && At(toks, end + 1) != ";" && !StartsLine(toks, end + 1)))
             else t != "{" && t != "default")
       case Statement(texts) => texts != [] && Inert(texts)
  }

  // ----- a module -----

  /** The token at which item k starts. */
  function Place(items: seq<Item>, k: nat): nat
    requires k <= |items|
  {
    if k == 0 then 0 else Place(items, k - 1) + |Texts(items[k - 1])|
  }

  /** The tokens are those of the items, one after the other. */
  ghost predicate Fits(items: seq<Item>, toks: seq<Token>) {
    |toks| == Place(items, |items|) && forall k :: 0 <= k < |items| ==> ItemFits(items[k], toks, Place(items, k))
  }

  // ----- what it exports -----

  /** The name under which an item itself exports its function. */
  function ExportsAs(item: Item): Option<string> {
    match item
    case Declared(how, _, _, name, _, _) => if how.Private? then None else Some(FunctionOf(item).value.name)
    case Bound(exports, _, name, _, _) => if exports then Some(name) else None
    case ArrowDefault(_, _, _) => Some("default")
    case _ => None
  }

  /** The name of a function that only a list can export. */
  function KeepsAs(item: Item): Option<string> {
    if FunctionOf(item).Some? && ExportsAs(item).None? then Some(FunctionOf(item).value.name) else None
  }

  /** Local and exported names of a list. */
  function Pairs(item: Item): seq<(string, string)> {
    match item
    case List(specs, _, reexport) => if reexport then [] else seq(|specs|, k requires 0 <= k < |specs| => SpecPair(specs[k]))
    case NameDefault(name) => [(name, "default")]
    case _ => []
  }

  /** All lists of the first k items. */
  function Lists(items: seq<Item>, k: nat): seq<(string, string)>
    requires k <= |items|
  {
    if k == 0 then [] else Lists(items, k - 1) + Pairs(items[k - 1])
  }

  /** Of the first n items, item k is the last that exports this name itself. */
  predicate LastExport(items: seq<Item>, n: nat, name: string, k: nat)
    requires n <= |items|
  {
    k < n && ExportsAs(items[k]) == Some(name) && forall j :: k < j < n ==> ExportsAs(items[j]) != Some(name)
  }

  /** Of the first n items, item k is the last that keeps a function of this name. */
  predicate LastKept(items: seq<Item>, n: nat, name: string, k: nat)
    requires n <= |items|
  {
    k < n && KeepsAs(items[k]) == Some(name) && forall j :: k < j < n ==> KeepsAs(items[j]) != Some(name)
  }

  /** Pair p of the lists gives this name to a function that the module keeps. */
  predicate ListGives(items: seq<Item>, name: string, p: nat) {
    var lists := Lists(items, |items|);
    p < |lists| && lists[p].1 == name && exists j :: 0 <= j < |items| && KeepsAs(items[j]) == Some(lists[p].0)
  }

  /** It is the last pair that does. */
  predicate LastGives(items: seq<Item>, name: string, p: nat) {
    && p < |Lists(items, |items|)| && ListGives(items, name, p)
    && forall q :: p < q < |Lists(items, |items|)| ==> !ListGives(items, name, q)
  }

  /**
   The module exports the function of item k as `name`: by the last list that names a function so,
   or, without one, by the last item that exports it itself.
   */
  ghost predicate Gives(items: seq<Item>, name: string, k: nat) {
    || (exists p: nat :: LastGives(items, name, p) && LastKept(items, |items|, Lists(items, |items|)[p].0, k))
    || ((forall p: nat :: !ListGives(items, name, p)) && LastExport(items, |items|, name, k))
  }

  /** The function of item k, as it is reported. */
  ghost function ToldAt(items: seq<Item>, toks: seq<Token>, docs: map<nat, string>, k: nat): ScriptFunction
    requires k < |items| && Fits(items, toks) && FunctionOf(items[k]).Some?
  {
    assert ItemFits(items[k], toks, Place(items, k));
    Told(FunctionOf(items[k]).value, toks, docs, Place(items, k))
  }
}

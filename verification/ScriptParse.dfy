/** The exported functions of a TS/JS module, recognized from its tokens within a budget of visits. */
module ScriptParse {
  datatype Token = Token(text: string, line: nat)

  /** One recognized function. `signature` and `body` are the token texts joined by spaces. */
  datatype ScriptFunction = ScriptFunction(name: string, line: nat, endLine: nat, signature: string, body: string,
                                           sig: seq<Token>, params: seq<Token>, bare: bool, typeParams: bool,
                                           async: bool, generator: bool, doc: string)

  const NO_FUNCTION := ScriptFunction("", 0, 0, "", "", [], [], false, false, false, false, "")

  /** The index a scan stopped at and the visits left. */
  datatype Stop = Stop(k: nat, steps: nat)

  /** A recognized function, the index after it, and whether there is one. */
  datatype Found = Found(fn: ScriptFunction, next: nat, ok: bool, steps: nat)

  function NotFound(fn: ScriptFunction, steps: nat): Found {
    Found(fn, 0, false, steps)
  }

  function At(toks: seq<Token>, k: nat): string {
    if k < |toks| then toks[k].text else ""
  }

  predicate IdentStart(c: char) {
    c == '_' || c == '$' || 'a' <= c <= 'z' || 'A' <= c <= 'Z' || c as int >= 0x80
  }

  predicate IsName(s: string) {
    s != "" && IdentStart(s[0])
  }

  predicate Opens(t: string) {
    t == "{" || t == "(" || t == "["
  }

  predicate Closes(t: string) {
    t == "}" || t == ")" || t == "]"
  }

  /** Tokens that start a new top-level statement. */
  predicate StartsStatement(t: string) {
    t in {"export", "import", "const", "let", "var", "function", "class", "async", "interface", "type", "enum", "declare"}
  }

  /** Token k is the first of a later line than the token before it. */
  predicate OnNewLine(toks: seq<Token>, k: nat)
    requires 0 < k < |toks|
  {
    toks[k].line > toks[k - 1].line
  }

  function Join(toks: seq<Token>): string {
    if toks == [] then "" else if |toks| == 1 then toks[0].text else toks[0].text + " " + Join(toks[1..])
  }

  // ----- the scans -----

  /** matchClose from token k at nesting `depth`; one past the end when the visits ran out. */
  function MatchClose(toks: seq<Token>, k: nat, depth: int, steps: nat): (r: Stop)
    ensures r.steps <= steps <= r.steps + if k <= |toks| then |toks| - k else 0
    ensures r.k <= |toks| + 1 && (k < |toks| ==> r.k > k)
    decreases |toks| - k
  {
    if k >= |toks| then Stop(|toks|, steps)
    else if steps == 0 then Stop(|toks| + 1, 0)
    else if Opens(toks[k].text) then MatchClose(toks, k + 1, depth + 1, steps - 1)
    else if Closes(toks[k].text) then
      if depth == 1 then Stop(k + 1, steps - 1) else MatchClose(toks, k + 1, depth - 1, steps - 1)
    else MatchClose(toks, k + 1, depth, steps - 1)
  }

  function MatchAngle(toks: seq<Token>, k: nat, depth: int, steps: nat): (r: Stop)
    ensures r.steps <= steps <= r.steps + if k <= |toks| then |toks| - k else 0
    ensures r.k <= |toks| && (k <= |toks| ==> r.k >= k)
    decreases |toks| - k
  {
    if k >= |toks| || steps == 0 then Stop(|toks|, steps)
    else
      var t := toks[k].text;
      if t == "<" then MatchAngle(toks, k + 1, depth + 1, steps - 1)
      else if t == ">" then
        if depth == 1 then Stop(k + 1, steps - 1) else MatchAngle(toks, k + 1, depth - 1, steps - 1)
      else if t == "{" || t == ";" then Stop(k, steps - 1)
      else MatchAngle(toks, k + 1, depth, steps - 1)
  }

  /** The loop of returnTypeEnd. */
  function TypeEnd(toks: seq<Token>, k: nat, depth: int, steps: nat): (r: Stop)
    ensures r.steps <= steps <= r.steps + if k <= |toks| then |toks| - k else 0
    ensures r.k <= |toks| && (k <= |toks| ==> r.k >= k)
    decreases |toks| - k
  {
    if k >= |toks| || steps == 0 then Stop(|toks|, steps)
    else
      var t := toks[k].text;
      if t == "(" || t == "[" || t == "<" then TypeEnd(toks, k + 1, depth + 1, steps - 1)
      else if t == ")" || t == "]" || t == ">" then TypeEnd(toks, k + 1, depth - 1, steps - 1)
      else if (t == "{" && depth <= 0) || t == ";" then Stop(k, steps - 1)
      else TypeEnd(toks, k + 1, depth, steps - 1)
  }

  /** returnTypeEnd: an object type right after the colon is part of the type. */
  function ReturnTypeEnd(toks: seq<Token>, i: nat, steps: nat): (r: Stop)
    ensures r.steps <= steps <= r.steps + 2 * |toks|
    ensures r.k <= |toks| && (i <= |toks| ==> r.k >= i)
  {
    if At(toks, i) == "{" then
      var m := MatchClose(toks, i, 0, steps);
      TypeEnd(toks, m.k, 0, m.steps)
    else TypeEnd(toks, i, 0, steps)
  }

  /** scanUntil, started at token `from`. */
  function ScanUntil(toks: seq<Token>, from: nat, k: nat, depth: int, stop: string, steps: nat): (r: Stop)
    requires from <= k
    ensures r.steps <= steps <= r.steps + if k <= |toks| then |toks| - k else 0
    ensures r.k <= |toks| && (k <= |toks| ==> r.k >= k)
    decreases |toks| - k
  {
    if k >= |toks| || steps == 0 then Stop(|toks|, steps)
    else
      var t := toks[k].text;
      if depth <= 0 && t == stop then Stop(k, steps - 1)
      else if depth <= 0 && k > from && OnNewLine(toks, k) && StartsStatement(t) then Stop(k, steps - 1)
      else if Opens(t) || t == "<" then ScanUntil(toks, from, k + 1, depth + 1, stop, steps - 1)
      else if Closes(t) || t == ">" then ScanUntil(toks, from, k + 1, depth - 1, stop, steps - 1)
      else if t == ";" && depth <= 0 then Stop(k, steps - 1)
      else ScanUntil(toks, from, k + 1, depth, stop, steps - 1)
  }

  /** Pairs of a local and an exported name, and the index after the list. */
  datatype Exports = Exports(pairs: seq<(string, string)>, next: nat, steps: nat)

  /** The loop of exportList, after the opening brace. */
  function ExportList(toks: seq<Token>, i: nat, pairs: seq<(string, string)>, steps: nat): (r: Exports)
    ensures r.steps <= steps <= r.steps + if i <= |toks| then |toks| - i else 0
    ensures r.next > i
    decreases |toks| - i
  {
    if i >= |toks| || toks[i].text == "}" || steps == 0 then Exports(pairs, i + 1, steps)
    else
      var name := toks[i].text;
      if !IsName(name) then ExportList(toks, i + 1, pairs, steps - 1)
      else
        var renamed := At(toks, i + 1) == "as" && IsName(At(toks, i + 2));
        var as_ := if renamed then At(toks, i + 2) else name;
        var more := if name != "type" || as_ != name then pairs + [(name, as_)] else pairs;
        ExportList(toks, if renamed then i + 3 else i + 1, more, steps - 1)
  }

  // ----- functions -----

  function Slice(toks: seq<Token>, from: nat, to: nat): seq<Token>
    requires from <= |toks| && to <= |toks|
  {
    if from <= to then toks[from..to] else []
  }

  /** The line of the last token before index k. */
  function LineBefore(toks: seq<Token>, k: nat): nat
    requires 0 < k <= |toks|
  {
    toks[k - 1].line
  }

  /** The body of a declaration whose parameters ended before token k. */
  function DeclarationBody(toks: seq<Token>, fn: ScriptFunction, sigStart: nat, k: nat, steps: nat): (r: Found)
    requires sigStart <= |toks|
    ensures r.steps <= steps <= r.steps + |toks|
    ensures r.ok ==> r.next > k
  {
    if At(toks, k) != "{" then NotFound(fn, steps)
    else
      var end := MatchClose(toks, k, 0, steps);
      if end.k > |toks| then NotFound(fn, end.steps)
      else
        var sig := Slice(toks, sigStart, k);
        var signature := (if fn.generator then "* " else "") + Join(sig);
        Found(fn.(sig := sig, signature := signature, body := Join(Slice(toks, k, end.k)), endLine := LineBefore(toks, end.k)),
              end.k, true, end.steps)
  }

  /** The parameters of a declaration, at token k, its return type and its body. */
  function DeclarationParams(toks: seq<Token>, fn: ScriptFunction, sigStart: nat, k: nat, steps: nat): (r: Found)
    requires sigStart <= |toks|
    ensures r.steps <= steps <= r.steps + 4 * |toks|
    ensures r.ok ==> r.next > k
  {
    if At(toks, k) != "(" then NotFound(fn, steps)
    else
      var close := MatchClose(toks, k, 0, steps);
      if close.k > |toks| then NotFound(fn, close.steps)
      else
        var fn' := fn.(params := Slice(toks, k + 1, close.k - 1));
        var typed := if At(toks, close.k) == ":" then ReturnTypeEnd(toks, close.k + 1, close.steps) else close;
        DeclarationBody(toks, fn', sigStart, typed.k, typed.steps)
  }

  /** declaration, after the function keyword: [*] [name] [<...>] (...) [: type] {...}. */
  function Declaration(toks: seq<Token>, i: nat, steps: nat): (r: Found)
    requires i < |toks|
    ensures r.steps <= steps <= r.steps + 5 * |toks|
    ensures r.ok ==> r.next > i
  {
    var generator := At(toks, i + 1) == "*";
    var k1 := if generator then i + 2 else i + 1;
    var named := IsName(At(toks, k1));
    var sigStart := if named then k1 + 1 else k1;
    var typeParams := At(toks, sigStart) == "<";
    var fn := NO_FUNCTION.(name := if named then At(toks, k1) else "", typeParams := typeParams, generator := generator);
    var angle := if typeParams then MatchAngle(toks, sigStart, 0, steps) else Stop(sigStart, steps);
    DeclarationParams(toks, fn, sigStart, angle.k, angle.steps)
  }

  /** The expression body of an arrow function, from token `start`, at token k. */
  function ArrowExpression(toks: seq<Token>, fn: ScriptFunction, start: nat, k: nat, depth: nat, steps: nat): (r: Found)
    requires start <= k
    ensures r.steps <= steps <= r.steps + if k <= |toks| then |toks| - k else 0
    ensures r.ok ==> r.next > start
    decreases |toks| - k
  {
    if k >= |toks| then ArrowEnd(toks, fn, start, k, steps)
    else if steps == 0 then NotFound(fn, 0)
    else
      var t := toks[k].text;
      if depth == 0 && (t == ";" || t == ",") then ArrowEnd(toks, fn, start, k, steps - 1)
      else if depth == 0 && k > start && OnNewLine(toks, k) && StartsStatement(t) then ArrowEnd(toks, fn, start, k, steps - 1)
      else if Opens(t) then ArrowExpression(toks, fn, start, k + 1, depth + 1, steps - 1)
      else if Closes(t) then
        if depth == 0 then ArrowEnd(toks, fn, start, k, steps - 1)
        else ArrowExpression(toks, fn, start, k + 1, depth - 1, steps - 1)
      else ArrowExpression(toks, fn, start, k + 1, depth, steps - 1)
  }

  function ArrowEnd(toks: seq<Token>, fn: ScriptFunction, start: nat, k: nat, steps: nat): Found
    requires start <= k
  {
    if start < k <= |toks|
    then Found(fn.(body := Join(toks[start..k]), endLine := LineBefore(toks, k)), k, true, steps)
    else Found(fn, k, false, steps)
  }

  /** What follows the parameters of an arrow function. */
  function ArrowBody(toks: seq<Token>, fn: ScriptFunction, sigStart: nat, k: nat, steps: nat): (r: Found)
    requires sigStart <= |toks|
    ensures r.steps <= steps <= r.steps + |toks|
    ensures r.ok ==> r.next > k
  {
    if At(toks, k) != "=>" then NotFound(fn, steps)
    else
      var sig := Slice(toks, sigStart, k);
      var fn' := fn.(sig := sig, signature := Join(sig));
      if At(toks, k + 1) == "{" then
        var end := MatchClose(toks, k + 1, 0, steps);
        if end.k > |toks| then NotFound(fn', end.steps)
        else Found(fn'.(body := Join(Slice(toks, k + 1, end.k)), endLine := LineBefore(toks, end.k)), end.k, true, end.steps)
      else ArrowExpression(toks, fn', k + 1, k + 1, 0, steps)
  }

  /** The parameters of an arrow function, which open at token k, its return type and its body. */
  function ArrowParams(toks: seq<Token>, fn: ScriptFunction, i: nat, k: nat, steps: nat): (r: Found)
    requires i <= k && At(toks, k) == "("
    ensures r.steps <= steps <= r.steps + 3 * |toks|
    ensures r.ok ==> r.next > i
  {
    var close := MatchClose(toks, k, 0, steps);
    if close.k > |toks| then NotFound(fn, close.steps)
    else
      var fn' := fn.(params := Slice(toks, k + 1, close.k - 1));
      var typed := if At(toks, close.k) == ":" then ScanUntil(toks, close.k + 1, close.k + 1, 0, "=>", close.steps) else close;
      ArrowBody(toks, fn', i, typed.k, typed.steps)
  }

  /** arrow: [<...>] (params) [: type] => body, or name => body. */
  function Arrow(toks: seq<Token>, i: nat, steps: nat): (r: Found)
    ensures r.steps <= steps <= r.steps + 4 * |toks|
    ensures r.ok ==> r.next > i
  {
    var first := At(toks, i);
    if first == "<" || first == "(" then
      var fn := NO_FUNCTION.(typeParams := first == "<");
      var angle := if first == "<" then MatchAngle(toks, i, 0, steps) else Stop(i, steps);
      if At(toks, angle.k) != "(" then NotFound(fn, angle.steps) else ArrowParams(toks, fn, i, angle.k, angle.steps)
    else if IsName(first) then
      ArrowBody(toks, NO_FUNCTION.(params := toks[i..i + 1], bare := true), i, i + 1, steps)
    else NotFound(NO_FUNCTION, steps)
  }

  /** async is part of the signature. */
  function Async(r: Found): (a: Found)
    ensures a.steps == r.steps && a.next == r.next && a.ok == r.ok
  {
    r.(fn := r.fn.(signature := "async " + r.fn.signature, async := true))
  }

  /** The async that starts an initializer, and not a name. */
  predicate AsyncAt(toks: seq<Token>, k: nat) {
    At(toks, k) == "async" &&
    var next := At(toks, k + 1);
    next == "function" || next == "(" || next == "<" || (IsName(next) && At(toks, k + 2) == "=>")
  }

  function Initializer(toks: seq<Token>, name: string, k: nat, steps: nat): (r: Found)
    ensures r.steps <= steps <= r.steps + 5 * |toks|
    ensures r.ok ==> r.next > k
  {
    var async := AsyncAt(toks, k);
    var start := if async then k + 1 else k;
    var found := if At(toks, start) == "function" then Declaration(toks, start, steps) else Arrow(toks, start, steps);
    var named := found.(fn := found.fn.(name := name));
    if async then Async(named) else named
  }

  /** A const, let or var binding of a function. */
  function Binding(toks: seq<Token>, i: nat, steps: nat): (r: Found)
    ensures r.steps <= steps <= r.steps + 6 * |toks|
    ensures r.ok ==> r.next > i
  {
    if !IsName(At(toks, i + 1)) then NotFound(NO_FUNCTION, steps)
    else
      var typed := if At(toks, i + 2) == ":" then ScanUntil(toks, i + 3, i + 3, 0, "=", steps) else Stop(i + 2, steps);
      if At(toks, typed.k) != "=" then NotFound(NO_FUNCTION, typed.steps)
      else Initializer(toks, At(toks, i + 1), typed.k + 1, typed.steps)
  }

  /** function: what starts at token i; a bare arrow function only for a default export. */
  function FunctionAt(toks: seq<Token>, i: nat, anonymous: bool, steps: nat): (r: Found)
    ensures r.steps <= steps <= r.steps + 6 * |toks|
    ensures r.ok ==> r.next > i
  {
    var t := At(toks, i);
    if t == "const" || t == "let" || t == "var" then Binding(toks, i, steps)
    else if t == "async" then
      if At(toks, i + 1) == "function" then Async(Declaration(toks, i + 1, steps))
      else if anonymous then Async(Arrow(toks, i + 1, steps))
      else NotFound(NO_FUNCTION, steps)
    else if t == "function" then Declaration(toks, i, steps)
    else if (t == "(" || t == "<") && anonymous then Arrow(toks, i, steps)
    else NotFound(NO_FUNCTION, steps)
  }

  // ----- the module -----

  /** The tables the parse fills. */
  datatype Tables = Tables(exported: map<string, ScriptFunction>, locals: map<string, ScriptFunction>, lists: seq<(string, string)>)

  /** The tables when the loop stopped, whether it read the whole module, and the visits left. */
  datatype Parsed = Parsed(tables: Tables, whole: bool, steps: nat)

  const NO_TABLES := Tables(map[], map[], [])

  /** "export", "export default", or neither, before a declaration. */
  function AfterExport(toks: seq<Token>, i: nat): nat {
    if At(toks, i) != "export" then i else if At(toks, i + 1) == "default" then i + 2 else i + 1
  }

  /** "export default name;": a default export of a local. */
  predicate DefaultName(toks: seq<Token>, j: nat) {
    && IsName(At(toks, j)) && At(toks, j) != "function" && At(toks, j) != "async" && At(toks, j) != "class"
    && (At(toks, j + 1) == ";" || j + 1 >= |toks| || OnNewLine(toks, j + 1))
  }

  /** Where the loop goes on, at which depth, with which tables and visits. */
  datatype Step = Step(i: nat, depth: nat, tables: Tables, steps: nat)

  function Record(docs: map<nat, string>, t: Tables, toks: seq<Token>, start: nat, exports: bool, byDefault: bool, fn: ScriptFunction): Tables
    requires start < |toks|
  {
    var fn' := fn.(line := toks[start].line, doc := if start in docs then docs[start] else "");
    if byDefault then t.(exported := t.exported["default" := fn'.(name := "default")])
    else if exports then t.(exported := t.exported[fn'.name := fn'])
    else t.(locals := t.locals[fn'.name := fn'])
  }

  /** A top-level token: an export list, a default export of a name, or a function. */
  function TopLevel(toks: seq<Token>, docs: map<nat, string>, i: nat, t: Tables, steps: nat): (r: Step)
    requires i < |toks|
    ensures r.steps <= steps <= r.steps + 6 * |toks|
    ensures r.i > i
  {
    var exports := At(toks, i) == "export";
    var byDefault := exports && At(toks, i + 1) == "default";
    var j := AfterExport(toks, i);
    if exports && !byDefault && At(toks, j) == "{" then
      var e := ExportList(toks, j + 1, [], steps);
      Step(e.next, 0, if At(toks, e.next) != "from" then t.(lists := t.lists + e.pairs) else t, e.steps)
    else if byDefault && DefaultName(toks, j) then
      Step(j + 1, 0, t.(lists := t.lists + [(At(toks, j), "default")]), steps)
    else
      var found := FunctionAt(toks, j, byDefault, steps);
      if !found.ok then Step(if exports then j else i + 1, 0, t, found.steps)
      else Step(found.next, 0, Record(docs, t, toks, i, exports, byDefault, found.fn), found.steps)
  }

  function OneStep(toks: seq<Token>, docs: map<nat, string>, i: nat, depth: nat, t: Tables, steps: nat): (r: Step)
    requires i < |toks|
    ensures r.steps <= steps <= r.steps + 6 * |toks|
    ensures r.i > i
  {
    var text := At(toks, i);
    if Opens(text) then Step(i + 1, depth + 1, t, steps)
    else if Closes(text) then Step(i + 1, if depth > 0 then depth - 1 else 0, t, steps)
    else if depth != 0 then Step(i + 1, depth, t, steps)
    else TopLevel(toks, docs, i, t, steps)
  }

  /** The loop over the tokens of a module; it stops when no visit is left. */
  function ParseFrom(toks: seq<Token>, docs: map<nat, string>, i: nat, depth: nat, t: Tables, steps: nat): (r: Parsed)
    ensures r.steps <= steps
    decreases steps
  {
    if i >= |toks| || steps == 0 then Parsed(t, i >= |toks|, steps)
    else
      var s := OneStep(toks, docs, i, depth, t, steps - 1);
      ParseFrom(toks, docs, s.i, s.depth, s.tables, s.steps)
  }

  /** Export lists name locals; a later name wins. */
  function WithLists(exported: map<string, ScriptFunction>, locals: map<string, ScriptFunction>, lists: seq<(string, string)>): map<string, ScriptFunction>
    decreases |lists|
  {
    if lists == [] then exported
    else
      var pair := lists[0];
      WithLists(if pair.0 in locals then exported[pair.1 := locals[pair.0].(name := pair.1)] else exported, locals, lists[1..])
  }

  /** The exported functions of a module, and whether the visits ran out. */
  datatype Exported = Exported(functions: map<string, ScriptFunction>, cut: bool)

  function Parse(toks: seq<Token>, docs: map<nat, string>, steps: nat): Exported {
    var p := ParseFrom(toks, docs, 0, 0, NO_TABLES, steps);
    if !p.whole then Exported(p.tables.exported, true)
    else Exported(WithLists(p.tables.exported, p.tables.locals, p.tables.lists), p.steps == 0)
  }

  const STEPS_PER_TOKEN: nat := 16
  const STEPS_BASE: nat := 65536

  /** The visits of a module. */
  function Budget(toks: seq<Token>): nat {
    STEPS_PER_TOKEN * |toks| + STEPS_BASE
  }

  // ----- the budget is invisible unless a cut is reported -----

  lemma {:induction false} MatchCloseMore(toks: seq<Token>, k: nat, depth: int, s: nat, d: nat)
    requires MatchClose(toks, k, depth, s).steps > 0
    ensures MatchClose(toks, k, depth, s + d) == MatchClose(toks, k, depth, s).(steps := MatchClose(toks, k, depth, s).steps + d)
    decreases |toks| - k
  {
    if k < |toks| {
      var t := toks[k].text;
      if Opens(t) {
        MatchCloseMore(toks, k + 1, depth + 1, s - 1, d);
      } else if Closes(t) {
        if depth != 1 {
          MatchCloseMore(toks, k + 1, depth - 1, s - 1, d);
        }
      } else {
        MatchCloseMore(toks, k + 1, depth, s - 1, d);
      }
    }
  }

  lemma {:induction false} MatchAngleMore(toks: seq<Token>, k: nat, depth: int, s: nat, d: nat)
    requires MatchAngle(toks, k, depth, s).steps > 0
    ensures MatchAngle(toks, k, depth, s + d) == MatchAngle(toks, k, depth, s).(steps := MatchAngle(toks, k, depth, s).steps + d)
    decreases |toks| - k
  {
    if k < |toks| {
      var t := toks[k].text;
      if t == "<" {
        MatchAngleMore(toks, k + 1, depth + 1, s - 1, d);
      } else if t == ">" {
        if depth != 1 {
          MatchAngleMore(toks, k + 1, depth - 1, s - 1, d);
        }
      } else if t != "{" && t != ";" {
        MatchAngleMore(toks, k + 1, depth, s - 1, d);
      }
    }
  }

  lemma {:induction false} TypeEndMore(toks: seq<Token>, k: nat, depth: int, s: nat, d: nat)
    requires TypeEnd(toks, k, depth, s).steps > 0
    ensures TypeEnd(toks, k, depth, s + d) == TypeEnd(toks, k, depth, s).(steps := TypeEnd(toks, k, depth, s).steps + d)
    decreases |toks| - k
  {
    if k < |toks| {
      var t := toks[k].text;
      if t == "(" || t == "[" || t == "<" {
        TypeEndMore(toks, k + 1, depth + 1, s - 1, d);
      } else if t == ")" || t == "]" || t == ">" {
        TypeEndMore(toks, k + 1, depth - 1, s - 1, d);
      } else if !((t == "{" && depth <= 0) || t == ";") {
        TypeEndMore(toks, k + 1, depth, s - 1, d);
      }
    }
  }

  lemma ReturnTypeEndMore(toks: seq<Token>, i: nat, s: nat, d: nat)
    requires ReturnTypeEnd(toks, i, s).steps > 0
    ensures ReturnTypeEnd(toks, i, s + d) == ReturnTypeEnd(toks, i, s).(steps := ReturnTypeEnd(toks, i, s).steps + d)
  {
    if At(toks, i) == "{" {
      MatchCloseMore(toks, i, 0, s, d);
      var m := MatchClose(toks, i, 0, s);
      TypeEndMore(toks, m.k, 0, m.steps, d);
    } else {
      TypeEndMore(toks, i, 0, s, d);
    }
  }

  lemma {:induction false} ScanUntilMore(toks: seq<Token>, from: nat, k: nat, depth: int, stop: string, s: nat, d: nat)
    requires from <= k && ScanUntil(toks, from, k, depth, stop, s).steps > 0
    ensures ScanUntil(toks, from, k, depth, stop, s + d) ==
            ScanUntil(toks, from, k, depth, stop, s).(steps := ScanUntil(toks, from, k, depth, stop, s).steps + d)
    decreases |toks| - k
  {
    if k < |toks| {
      var t := toks[k].text;
      if depth <= 0 && t == stop {
      } else if depth <= 0 && k > from && OnNewLine(toks, k) && StartsStatement(t) {
      } else if Opens(t) || t == "<" {
        ScanUntilMore(toks, from, k + 1, depth + 1, stop, s - 1, d);
      } else if Closes(t) || t == ">" {
        ScanUntilMore(toks, from, k + 1, depth - 1, stop, s - 1, d);
      } else if !(t == ";" && depth <= 0) {
        ScanUntilMore(toks, from, k + 1, depth, stop, s - 1, d);
      }
    }
  }

  lemma {:induction false} ExportListMore(toks: seq<Token>, i: nat, pairs: seq<(string, string)>, s: nat, d: nat)
    requires ExportList(toks, i, pairs, s).steps > 0
    ensures ExportList(toks, i, pairs, s + d) == ExportList(toks, i, pairs, s).(steps := ExportList(toks, i, pairs, s).steps + d)
    decreases |toks| - i
  {
    if i < |toks| && toks[i].text != "}" {
      var name := toks[i].text;
      if !IsName(name) {
        ExportListMore(toks, i + 1, pairs, s - 1, d);
      } else {
        var renamed := At(toks, i + 1) == "as" && IsName(At(toks, i + 2));
        var as_ := if renamed then At(toks, i + 2) else name;
        var more := if name != "type" || as_ != name then pairs + [(name, as_)] else pairs;
        ExportListMore(toks, if renamed then i + 3 else i + 1, more, s - 1, d);
      }
    }
  }

  lemma DeclarationBodyMore(toks: seq<Token>, fn: ScriptFunction, sigStart: nat, k: nat, s: nat, d: nat)
    requires sigStart <= |toks| && DeclarationBody(toks, fn, sigStart, k, s).steps > 0
    ensures DeclarationBody(toks, fn, sigStart, k, s + d) ==
            DeclarationBody(toks, fn, sigStart, k, s).(steps := DeclarationBody(toks, fn, sigStart, k, s).steps + d)
  {
    if At(toks, k) == "{" {
      MatchCloseMore(toks, k, 0, s, d);
    }
  }

  lemma DeclarationParamsMore(toks: seq<Token>, fn: ScriptFunction, sigStart: nat, k: nat, s: nat, d: nat)
    requires sigStart <= |toks| && DeclarationParams(toks, fn, sigStart, k, s).steps > 0
    ensures DeclarationParams(toks, fn, sigStart, k, s + d) ==
            DeclarationParams(toks, fn, sigStart, k, s).(steps := DeclarationParams(toks, fn, sigStart, k, s).steps + d)
  {
    hide DeclarationBody, MatchClose, ReturnTypeEnd;
    if At(toks, k) == "(" {
      var close := MatchClose(toks, k, 0, s);
      MatchCloseMore(toks, k, 0, s, d);
      if close.k <= |toks| {
        var typed := close;
        if At(toks, close.k) == ":" {
          typed := ReturnTypeEnd(toks, close.k + 1, close.steps);
          ReturnTypeEndMore(toks, close.k + 1, close.steps, d);
        }
        DeclarationBodyMore(toks, fn.(params := Slice(toks, k + 1, close.k - 1)), sigStart, typed.k, typed.steps, d);
      }
    }
  }

  lemma DeclarationMore(toks: seq<Token>, i: nat, s: nat, d: nat)
    requires i < |toks| && Declaration(toks, i, s).steps > 0
    ensures Declaration(toks, i, s + d) == Declaration(toks, i, s).(steps := Declaration(toks, i, s).steps + d)
  {
    hide DeclarationParams, MatchAngle;
    var k1 := if At(toks, i + 1) == "*" then i + 2 else i + 1;
    var named := IsName(At(toks, k1));
    var sigStart := if named then k1 + 1 else k1;
    var typeParams := At(toks, sigStart) == "<";
    var fn := NO_FUNCTION.(name := if named then At(toks, k1) else "", typeParams := typeParams, generator := At(toks, i + 1) == "*");
    var angle := Stop(sigStart, s);
    if typeParams {
      angle := MatchAngle(toks, sigStart, 0, s);
      MatchAngleMore(toks, sigStart, 0, s, d);
    }
    DeclarationParamsMore(toks, fn, sigStart, angle.k, angle.steps, d);
  }

  lemma {:induction false} ArrowExpressionMore(toks: seq<Token>, fn: ScriptFunction, start: nat, k: nat, depth: nat, s: nat, d: nat)
    requires start <= k && ArrowExpression(toks, fn, start, k, depth, s).steps > 0
    ensures ArrowExpression(toks, fn, start, k, depth, s + d) ==
            ArrowExpression(toks, fn, start, k, depth, s).(steps := ArrowExpression(toks, fn, start, k, depth, s).steps + d)
    decreases |toks| - k
  {
    hide Join;
    if k < |toks| {
      var t := toks[k].text;
      if depth == 0 && (t == ";" || t == ",") {
      } else if depth == 0 && k > start && OnNewLine(toks, k) && StartsStatement(t) {
      } else if Opens(t) {
        ArrowExpressionMore(toks, fn, start, k + 1, depth + 1, s - 1, d);
      } else if Closes(t) {
        if depth > 0 {
          ArrowExpressionMore(toks, fn, start, k + 1, depth - 1, s - 1, d);
        }
      } else {
        ArrowExpressionMore(toks, fn, start, k + 1, depth, s - 1, d);
      }
    }
  }

  lemma ArrowBodyMore(toks: seq<Token>, fn: ScriptFunction, sigStart: nat, k: nat, s: nat, d: nat)
    requires sigStart <= |toks| && ArrowBody(toks, fn, sigStart, k, s).steps > 0
    ensures ArrowBody(toks, fn, sigStart, k, s + d) ==
            ArrowBody(toks, fn, sigStart, k, s).(steps := ArrowBody(toks, fn, sigStart, k, s).steps + d)
  {
    hide MatchClose, ArrowExpression, Join;
    if At(toks, k) == "=>" {
      var sig := Slice(toks, sigStart, k);
      var fn' := fn.(sig := sig, signature := Join(sig));
      if At(toks, k + 1) == "{" {
        MatchCloseMore(toks, k + 1, 0, s, d);
      } else {
        ArrowExpressionMore(toks, fn', k + 1, k + 1, 0, s, d);
      }
    }
  }

  lemma ArrowParamsMore(toks: seq<Token>, fn: ScriptFunction, i: nat, k: nat, s: nat, d: nat)
    requires i <= k && At(toks, k) == "(" && ArrowParams(toks, fn, i, k, s).steps > 0
    ensures ArrowParams(toks, fn, i, k, s + d) == ArrowParams(toks, fn, i, k, s).(steps := ArrowParams(toks, fn, i, k, s).steps + d)
  {
    hide ArrowBody, MatchClose, ScanUntil, Slice;
    var close := MatchClose(toks, k, 0, s);
    MatchCloseMore(toks, k, 0, s, d);
    if close.k <= |toks| {
      var typed := close;
      if At(toks, close.k) == ":" {
        typed := ScanUntil(toks, close.k + 1, close.k + 1, 0, "=>", close.steps);
        ScanUntilMore(toks, close.k + 1, close.k + 1, 0, "=>", close.steps, d);
      }
      ArrowBodyMore(toks, fn.(params := Slice(toks, k + 1, close.k - 1)), i, typed.k, typed.steps, d);
    }
  }

  lemma ArrowMore(toks: seq<Token>, i: nat, s: nat, d: nat)
    requires Arrow(toks, i, s).steps > 0
    ensures Arrow(toks, i, s + d) == Arrow(toks, i, s).(steps := Arrow(toks, i, s).steps + d)
  {
    hide ArrowBody, ArrowParams, MatchAngle;
    var first := At(toks, i);
    if first == "<" || first == "(" {
      var angle := Stop(i, s);
      if first == "<" {
        angle := MatchAngle(toks, i, 0, s);
        MatchAngleMore(toks, i, 0, s, d);
      }
      if At(toks, angle.k) == "(" {
        ArrowParamsMore(toks, NO_FUNCTION.(typeParams := first == "<"), i, angle.k, angle.steps, d);
      }
    } else if IsName(first) {
      ArrowBodyMore(toks, NO_FUNCTION.(params := toks[i..i + 1], bare := true), i, i + 1, s, d);
    }
  }

  lemma FunctionAtMore(toks: seq<Token>, i: nat, anonymous: bool, s: nat, d: nat)
    requires FunctionAt(toks, i, anonymous, s).steps > 0
    ensures FunctionAt(toks, i, anonymous, s + d) ==
            FunctionAt(toks, i, anonymous, s).(steps := FunctionAt(toks, i, anonymous, s).steps + d)
  {
    hide Declaration, Arrow, Binding;
    var t := At(toks, i);
    if t == "const" || t == "let" || t == "var" {
      BindingMore(toks, i, s, d);
    } else if t == "async" {
      if At(toks, i + 1) == "function" {
        DeclarationMore(toks, i + 1, s, d);
      } else if anonymous {
        ArrowMore(toks, i + 1, s, d);
      }
    } else if t == "function" {
      DeclarationMore(toks, i, s, d);
    } else if (t == "(" || t == "<") && anonymous {
      ArrowMore(toks, i, s, d);
    }
  }

  lemma InitializerMore(toks: seq<Token>, name: string, k: nat, s: nat, d: nat)
    requires Initializer(toks, name, k, s).steps > 0
    ensures Initializer(toks, name, k, s + d) == Initializer(toks, name, k, s).(steps := Initializer(toks, name, k, s).steps + d)
  {
    hide Declaration, Arrow, AsyncAt;
    var start := if AsyncAt(toks, k) then k + 1 else k;
    if At(toks, start) == "function" {
      DeclarationMore(toks, start, s, d);
    } else {
      ArrowMore(toks, start, s, d);
    }
  }

  lemma BindingMore(toks: seq<Token>, i: nat, s: nat, d: nat)
    requires Binding(toks, i, s).steps > 0
    ensures Binding(toks, i, s + d) == Binding(toks, i, s).(steps := Binding(toks, i, s).steps + d)
  {
    hide Initializer, ScanUntil;
    if IsName(At(toks, i + 1)) {
      var typed := Stop(i + 2, s);
      if At(toks, i + 2) == ":" {
        typed := ScanUntil(toks, i + 3, i + 3, 0, "=", s);
        ScanUntilMore(toks, i + 3, i + 3, 0, "=", s, d);
      }
      if At(toks, typed.k) == "=" {
        InitializerMore(toks, At(toks, i + 1), typed.k + 1, typed.steps, d);
      }
    }
  }

  lemma OneStepMore(toks: seq<Token>, docs: map<nat, string>, i: nat, depth: nat, t: Tables, s: nat, d: nat)
    requires i < |toks| && OneStep(toks, docs, i, depth, t, s).steps > 0
    ensures OneStep(toks, docs, i, depth, t, s + d) ==
            OneStep(toks, docs, i, depth, t, s).(steps := OneStep(toks, docs, i, depth, t, s).steps + d)
  {
    hide FunctionAt, ExportList, Record, DefaultName;
    if !Opens(At(toks, i)) && !Closes(At(toks, i)) && depth == 0 {
      var exports := At(toks, i) == "export";
      var byDefault := exports && At(toks, i + 1) == "default";
      var j := AfterExport(toks, i);
      if exports && !byDefault && At(toks, j) == "{" {
        ExportListMore(toks, j + 1, [], s, d);
      } else if !(byDefault && DefaultName(toks, j)) {
        FunctionAtMore(toks, j, byDefault, s, d);
      }
    }
  }

  lemma {:induction false} ParseFromMore(toks: seq<Token>, docs: map<nat, string>, i: nat, depth: nat, t: Tables, s: nat, d: nat)
    requires ParseFrom(toks, docs, i, depth, t, s).steps > 0
    ensures ParseFrom(toks, docs, i, depth, t, s + d) ==
            ParseFrom(toks, docs, i, depth, t, s).(steps := ParseFrom(toks, docs, i, depth, t, s).steps + d)
    decreases s
  {
    hide OneStep;
    if i < |toks| {
      var next := OneStep(toks, docs, i, depth, t, s - 1);
      OneStepMore(toks, docs, i, depth, t, s - 1, d);
      ParseFromMore(toks, docs, next.i, next.depth, next.tables, next.steps, d);
    }
  }

  /** A parse that reports no cut gives the functions any larger budget gives. */
  lemma BudgetInvisible(toks: seq<Token>, docs: map<nat, string>, budget: nat, larger: nat)
    requires budget <= larger && !Parse(toks, docs, budget).cut
    ensures Parse(toks, docs, larger) == Parse(toks, docs, budget)
  {
    hide ParseFrom, WithLists;
    ParseFromMore(toks, docs, 0, 0, NO_TABLES, budget, larger - budget);
  }

  /** One visit for the token itself, and six scans of the whole module at most. */
  function StepCost(toks: seq<Token>): nat {
    6 * |toks| + 1
  }

  function Left(toks: seq<Token>, i: nat): nat {
    if i <= |toks| then |toks| - i else 0
  }

  /** Every step of the loop advances, so a budget quadratic in the tokens is never used up. */
  lemma {:induction false} ParseFromEnough(toks: seq<Token>, docs: map<nat, string>, i: nat, depth: nat, t: Tables, s: nat)
    requires s > StepCost(toks) * Left(toks, i)
    ensures ParseFrom(toks, docs, i, depth, t, s).steps > 0
    decreases s
  {
    hide OneStep;
    if i < |toks| {
      var next := OneStep(toks, docs, i, depth, t, s - 1);
      StepBudget(StepCost(toks), Left(toks, i), Left(toks, next.i));
      ParseFromEnough(toks, docs, next.i, next.depth, next.tables, next.steps);
    }
  }

  lemma StepBudget(cost: nat, left: nat, after: nat)
    requires after + 1 <= left
    ensures cost * after + cost <= cost * left
  {
    assert cost * (after + 1) <= cost * left;
  }

  lemma ParseEnough(toks: seq<Token>, docs: map<nat, string>, s: nat)
    requires s > StepCost(toks) * |toks|
    ensures !Parse(toks, docs, s).cut
  {
    hide ParseFrom, WithLists;
    ParseFromEnough(toks, docs, 0, 0, NO_TABLES, s);
    ParseFromWhole(toks, docs, 0, 0, NO_TABLES, s);
  }

  lemma {:induction false} ParseFromWhole(toks: seq<Token>, docs: map<nat, string>, i: nat, depth: nat, t: Tables, s: nat)
    requires ParseFrom(toks, docs, i, depth, t, s).steps > 0
    ensures ParseFrom(toks, docs, i, depth, t, s).whole
    decreases s
  {
    hide OneStep;
    if i < |toks| {
      var next := OneStep(toks, docs, i, depth, t, s - 1);
      ParseFromWhole(toks, docs, next.i, next.depth, next.tables, next.steps);
    }
  }

  // ----- what a closing bracket is -----

  /** Brackets opened less brackets closed, whatever their kind, from token i up to token j. */
  function Nesting(toks: seq<Token>, i: nat, j: nat): int
    requires i <= j <= |toks|
    decreases j - i
  {
    if i == j then 0
    else Nesting(toks, i, j - 1) + (if Opens(toks[j - 1].text) then 1 else if Closes(toks[j - 1].text) then -1 else 0)
  }

  /** Token j - 1 closes a bracket. */
  predicate ClosesBefore(toks: seq<Token>, j: nat) {
    0 < j <= |toks| && Closes(toks[j - 1].text)
  }

  /** Token j - 1 is the first that closes what is open at depth `depth` before token k. */
  predicate FirstClose(toks: seq<Token>, k: nat, depth: int, j: nat)
    requires k <= |toks|
  {
    && k < j && ClosesBefore(toks, j) && depth + Nesting(toks, k, j) == 0
    && forall m :: k < m < j && ClosesBefore(toks, m) ==> depth + Nesting(toks, k, m) != 0
  }

  lemma {:induction false} NestingFirst(toks: seq<Token>, i: nat, j: nat)
    requires i < j <= |toks|
    ensures Nesting(toks, i, j) == Nesting(toks, i, i + 1) + Nesting(toks, i + 1, j)
    decreases j - i
  {
    if i + 1 < j {
      NestingFirst(toks, i, j - 1);
    }
  }

  lemma FirstCloseNext(toks: seq<Token>, k: nat, depth: int, j: nat)
    requires k < |toks| && !(Closes(toks[k].text) && depth == 1)
    requires FirstClose(toks, k + 1, depth + Nesting(toks, k, k + 1), j)
    ensures FirstClose(toks, k, depth, j)
  {
    NestingFirst(toks, k, j);
    forall m | k < m < j && ClosesBefore(toks, m)
      ensures depth + Nesting(toks, k, m) != 0
    {
      NestingFirst(toks, k, m);
      if m == k + 1 {
        assert Nesting(toks, k, k + 1) == Nesting(toks, k, k) - 1;
      }
    }
  }

  /** With visits left, matchClose stops after the first closing bracket, or at the end when there is none. */
  lemma {:induction false} MatchCloseIsFirst(toks: seq<Token>, k: nat, depth: int, s: nat)
    requires k <= |toks| && MatchClose(toks, k, depth, s).steps > 0
    ensures var j := MatchClose(toks, k, depth, s).k;
            FirstClose(toks, k, depth, j) || (j == |toks| && forall m :: k < m <= |toks| ==> !FirstClose(toks, k, depth, m))
    decreases |toks| - k
  {
    hide StartsStatement;
    if k < |toks| {
      var t := toks[k].text;
      assert Nesting(toks, k, k + 1) == Nesting(toks, k, k) + (if Opens(t) then 1 else if Closes(t) then -1 else 0);
      if !(Closes(t) && depth == 1) {
        var next := depth + Nesting(toks, k, k + 1);
        MatchCloseIsFirst(toks, k + 1, next, s - 1);
        var j := MatchClose(toks, k + 1, next, s - 1).k;
        assert MatchClose(toks, k, depth, s) == MatchClose(toks, k + 1, next, s - 1);
        if FirstClose(toks, k + 1, next, j) {
          FirstCloseNext(toks, k, depth, j);
        } else {
          forall m | k < m <= |toks| ensures !FirstClose(toks, k, depth, m) {
            FirstCloseBack(toks, k, depth, m);
          }
        }
      }
    }
  }

  lemma FirstCloseBack(toks: seq<Token>, k: nat, depth: int, m: nat)
    requires k < m <= |toks| && !(Closes(toks[k].text) && depth == 1)
    ensures FirstClose(toks, k, depth, m) ==> FirstClose(toks, k + 1, depth + Nesting(toks, k, k + 1), m)
  {
    if FirstClose(toks, k, depth, m) {
      assert Nesting(toks, k, k + 1) == Nesting(toks, k, k) + (if Opens(toks[k].text) then 1 else if Closes(toks[k].text) then -1 else 0);
      NestingFirst(toks, k, m);
      forall n | k + 1 < n < m && ClosesBefore(toks, n)
        ensures depth + Nesting(toks, k, k + 1) + Nesting(toks, k + 1, n) != 0
      {
        NestingFirst(toks, k, n);
      }
    }
  }
}

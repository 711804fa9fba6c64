/** The parser of a TS/JS module as the host runs it: scans that spend from one budget. */
module ScriptParser {
  import opened ScriptParse

  class Parser {
    const toks: seq<Token>
    const docs: map<nat, string>
    var steps: nat

    /** newScriptParser: 16 visits per token and 65,536 more. */
    constructor (toks: seq<Token>, docs: map<nat, string>)
      ensures this.toks == toks && this.docs == docs && steps == Budget(toks)
    {
      this.toks, this.docs := toks, docs;
      steps := STEPS_PER_TOKEN * |toks| + STEPS_BASE;
    }

    method Spend() returns (ok: bool)
      modifies this
      ensures ok <==> old(steps) > 0
      ensures steps == if ok then old(steps) - 1 else old(steps)
    {
      if steps == 0 {
        return false;
      }
      steps := steps - 1;
      return true;
    }

    method CloseOf(i: nat) returns (r: nat)
      modifies this
      ensures Stop(r, steps) == MatchClose(toks, i, 0, old(steps))
    {
      var depth, k := 0, i;
      while k < |toks|
        invariant MatchClose(toks, k, depth, steps) == MatchClose(toks, i, 0, old(steps))
      {
        var ok := Spend();
        if !ok {
          return |toks| + 1;
        }
        var t := toks[k].text;
        if Opens(t) {
          depth := depth + 1;
        } else if Closes(t) {
          depth := depth - 1;
          if depth == 0 {
            return k + 1;
          }
        }
        k := k + 1;
      }
      return |toks|;
    }

    method AngleOf(i: nat) returns (r: nat)
      modifies this
      ensures Stop(r, steps) == MatchAngle(toks, i, 0, old(steps))
    {
      var depth, k := 0, i;
      while k < |toks|
        invariant MatchAngle(toks, k, depth, steps) == MatchAngle(toks, i, 0, old(steps))
      {
        var ok := Spend();
        if !ok {
          break;
        }
        var t := toks[k].text;
        if t == "<" {
          depth := depth + 1;
        } else if t == ">" {
          depth := depth - 1;
          if depth == 0 {
            return k + 1;
          }
        } else if t == "{" || t == ";" {
          return k;
        }
        k := k + 1;
      }
      return |toks|;
    }

    method EndOfReturnType(i: nat) returns (r: nat)
      modifies this
      ensures Stop(r, steps) == ReturnTypeEnd(toks, i, old(steps))
    {
      var k := i;
      if At(toks, k) == "{" {
        k := CloseOf(k);
      }
      var depth := 0;
      while k < |toks|
        invariant TypeEnd(toks, k, depth, steps) == ReturnTypeEnd(toks, i, old(steps))
      {
        var ok := Spend();
        if !ok {
          break;
        }
        var t := toks[k].text;
        if t == "(" || t == "[" || t == "<" {
          depth := depth + 1;
        } else if t == ")" || t == "]" || t == ">" {
          depth := depth - 1;
        } else if t == "{" {
          if depth <= 0 {
            return k;
          }
        } else if t == ";" {
          return k;
        }
        k := k + 1;
      }
      return |toks|;
    }

    method Until(i: nat, stop: string) returns (r: nat)
      modifies this
      ensures Stop(r, steps) == ScanUntil(toks, i, i, 0, stop, old(steps))
    {
      var depth, k := 0, i;
      while k < |toks|
        invariant i <= k
        invariant ScanUntil(toks, i, k, depth, stop, steps) == ScanUntil(toks, i, i, 0, stop, old(steps))
      {
        var ok := Spend();
        if !ok {
          break;
        }
        var t := toks[k].text;
        if depth <= 0 && t == stop {
          return k;
        }
        if depth <= 0 && k > i && toks[k].line > toks[k - 1].line && StartsStatement(t) {
          return k;
        }
        if Opens(t) || t == "<" {
          depth := depth + 1;
        } else if Closes(t) || t == ">" {
          depth := depth - 1;
        } else if t == ";" && depth <= 0 {
          return k;
        }
        k := k + 1;
      }
      return |toks|;
    }

    /** exportList, after the opening brace. */
    method Pairs(start: nat) returns (pairs: seq<(string, string)>, next: nat)
      modifies this
      ensures Exports(pairs, next, steps) == ExportList(toks, start, [], old(steps))
    {
      pairs := [];
      var i := start;
      while i < |toks| && toks[i].text != "}"
        invariant ExportList(toks, i, pairs, steps) == ExportList(toks, start, [], old(steps))
        decreases |toks| - i
      {
        var ok := Spend();
        if !ok {
          break;
        }
        var name := toks[i].text;
        if !IsName(name) {
          i := i + 1;
          continue;
        }
        var renamed := name;
        if At(toks, i + 1) == "as" && IsName(At(toks, i + 2)) {
          renamed := At(toks, i + 2);
          i := i + 2;
        }
        if name != "type" || renamed != name {
          pairs := pairs + [(name, renamed)];
        }
        i := i + 1;
      }
      next := i + 1;
    }

    method BodyOf(fn: ScriptFunction, sigStart: nat, k: nat) returns (r: ScriptFunction, next: nat, ok: bool)
      requires sigStart <= |toks|
      modifies this
      ensures Found(r, next, ok, steps) == DeclarationBody(toks, fn, sigStart, k, old(steps))
    {
      r := fn;
      if At(toks, k) != "{" {
        return r, 0, false;
      }
      var end := CloseOf(k);
      if end > |toks| {
        return r, 0, false;
      }
      var sig := Slice(toks, sigStart, k);
      var signature := Join(sig);
      if fn.generator {
        signature := "* " + signature;
      }
      r := r.(sig := sig, signature := signature, body := Join(Slice(toks, k, end)), endLine := toks[end - 1].line);
      return r, end, true;
    }

    method DeclarationOf(i: nat) returns (r: ScriptFunction, next: nat, ok: bool)
      requires i < |toks|
      modifies this
      ensures Found(r, next, ok, steps) == Declaration(toks, i, old(steps))
    {
      var k := i + 1;
      var generator := At(toks, k) == "*";
      if generator {
        k := k + 1;
      }
      r := NO_FUNCTION.(generator := generator);
      if IsName(At(toks, k)) {
        r := r.(name := At(toks, k));
        k := k + 1;
      }
      var sigStart := k;
      if At(toks, k) == "<" {
        r := r.(typeParams := true);
        k := AngleOf(k);
      }
      r, next, ok := ParamsOf(r, sigStart, k);
    }

    method ParamsOf(fn: ScriptFunction, sigStart: nat, open: nat) returns (r: ScriptFunction, next: nat, ok: bool)
      requires sigStart <= |toks|
      modifies this
      ensures Found(r, next, ok, steps) == DeclarationParams(toks, fn, sigStart, open, old(steps))
    {
      hide DeclarationBody, ReturnTypeEnd, MatchClose;
      r := fn;
      if At(toks, open) != "(" {
        return r, 0, false;
      }
      var k := CloseOf(open);
      if k > |toks| {
        return r, 0, false;
      }
      r := r.(params := Slice(toks, open + 1, k - 1));
      if At(toks, k) == ":" {
        k := EndOfReturnType(k + 1);
      }
      r, next, ok := BodyOf(r, sigStart, k);
    }

    /** The expression body of an arrow function. */
    method ExpressionOf(fn: ScriptFunction, start: nat) returns (r: ScriptFunction, next: nat, ok: bool)
      modifies this
      ensures Found(r, next, ok, steps) == ArrowExpression(toks, fn, start, start, 0, old(steps))
    {
      r := fn;
      var k, depth: nat := start, 0;
      while k < |toks|
        invariant start <= k && r == fn
        invariant ArrowExpression(toks, fn, start, k, depth, steps) == ArrowExpression(toks, fn, start, start, 0, old(steps))
      {
        var spent := Spend();
        if !spent {
          return r, 0, false;
        }
        var t := toks[k].text;
        if depth == 0 && (t == ";" || t == ",") {
          break;
        }
        if depth == 0 && k > start && toks[k].line > toks[k - 1].line && StartsStatement(t) {
          break;
        }
        if Opens(t) {
          depth := depth + 1;
        } else if Closes(t) {
          if depth == 0 {
            break;
          }
          depth := depth - 1;
        }
        k := k + 1;
      }
      ok := start < k <= |toks|;
      if ok {
        r := r.(body := Join(toks[start..k]), endLine := toks[k - 1].line);
      }
      next := k;
    }

    method ArrowBodyOf(fn: ScriptFunction, sigStart: nat, k: nat) returns (r: ScriptFunction, next: nat, ok: bool)
      requires sigStart <= |toks|
      modifies this
      ensures Found(r, next, ok, steps) == ArrowBody(toks, fn, sigStart, k, old(steps))
    {
      r := fn;
      if At(toks, k) != "=>" {
        return r, 0, false;
      }
      var sig := Slice(toks, sigStart, k);
      r := r.(sig := sig, signature := Join(sig));
      if At(toks, k + 1) != "{" {
        r, next, ok := ExpressionOf(r, k + 1);
        return;
      }
      var end := CloseOf(k + 1);
      if end > |toks| {
        return r, 0, false;
      }
      r := r.(body := Join(Slice(toks, k + 1, end)), endLine := toks[end - 1].line);
      return r, end, true;
    }

    method ArrowOf(i: nat) returns (r: ScriptFunction, next: nat, ok: bool)
      modifies this
      ensures Found(r, next, ok, steps) == Arrow(toks, i, old(steps))
    {
      hide ArrowBody, ScanUntil, MatchClose, MatchAngle;
      r := NO_FUNCTION;
      var k := i;
      if At(toks, k) == "<" || At(toks, k) == "(" {
        if At(toks, k) == "<" {
          r := r.(typeParams := true);
          k := AngleOf(k);
        }
        if At(toks, k) != "(" {
          return r, 0, false;
        }
        var open := k;
        k := CloseOf(k);
        if k > |toks| {
          return r, 0, false;
        }
        r := r.(params := Slice(toks, open + 1, k - 1));
        if At(toks, k) == ":" {
          k := Until(k + 1, "=>");
        }
      } else if IsName(At(toks, k)) {
        r := r.(params := toks[k..k + 1], bare := true);
        k := k + 1;
      } else {
        return r, 0, false;
      }
      r, next, ok := ArrowBodyOf(r, i, k);
    }

    method InitializerOf(name: string, at: nat) returns (r: ScriptFunction, next: nat, ok: bool)
      modifies this
      ensures Found(r, next, ok, steps) == Initializer(toks, name, at, old(steps))
    {
      var k := at;
      var async := AsyncAt(toks, k);
      if async {
        k := k + 1;
      }
      if At(toks, k) == "function" {
        r, next, ok := DeclarationOf(k);
      } else {
        r, next, ok := ArrowOf(k);
      }
      r := r.(name := name);
      if async {
        r := r.(signature := "async " + r.signature, async := true);
      }
    }

    method BindingOf(i: nat) returns (r: ScriptFunction, next: nat, ok: bool)
      modifies this
      ensures Found(r, next, ok, steps) == Binding(toks, i, old(steps))
    {
      hide At, IsName, Initializer, ScanUntil;
      if !IsName(At(toks, i + 1)) {
        return NO_FUNCTION, 0, false;
      }
      var k := i + 2;
      if At(toks, k) == ":" {
        k := Until(k + 1, "=");
      }
      if At(toks, k) != "=" {
        return NO_FUNCTION, 0, false;
      }
      r, next, ok := InitializerOf(At(toks, i + 1), k + 1);
    }

    method FunctionOf(i: nat, anonymous: bool) returns (r: ScriptFunction, next: nat, ok: bool)
      modifies this
      ensures Found(r, next, ok, steps) == FunctionAt(toks, i, anonymous, old(steps))
    {
      var t := At(toks, i);
      if t == "const" || t == "let" || t == "var" {
        r, next, ok := BindingOf(i);
        return;
      }
      if t == "async" {
        if At(toks, i + 1) == "function" {
          r, next, ok := DeclarationOf(i + 1);
          r := r.(signature := "async " + r.signature, async := true);
          return;
        }
        if anonymous {
          r, next, ok := ArrowOf(i + 1);
          r := r.(signature := "async " + r.signature, async := true);
          return;
        }
        return NO_FUNCTION, 0, false;
      }
      if t == "function" {
        r, next, ok := DeclarationOf(i);
        return;
      }
      if (t == "(" || t == "<") && anonymous {
        r, next, ok := ArrowOf(i);
        return;
      }
      return NO_FUNCTION, 0, false;
    }

    /** What starts at a top-level token: the tables after it and the index to go on at. */
    method TopLevelAt(start: nat, t: Tables) returns (next: nat, tables: Tables)
      requires start < |toks|
      modifies this
      ensures Step(next, 0, tables, steps) == TopLevel(toks, docs, start, t, old(steps))
    {
      var j := start;
      var exports, byDefault := false, false;
      if At(toks, j) == "export" {
        exports := true;
        j := j + 1;
        if At(toks, j) == "default" {
          byDefault := true;
          j := j + 1;
        }
      }
      if exports && !byDefault && At(toks, j) == "{" {
        var pairs;
        pairs, next := Pairs(j + 1);
        tables := if At(toks, next) != "from" then t.(lists := t.lists + pairs) else t;
        return;
      }
      if byDefault && DefaultName(toks, j) {
        return j + 1, t.(lists := t.lists + [(At(toks, j), "default")]);
      }
      var fn, after, ok := FunctionOf(j, byDefault);
      if !ok {
        return if exports then j else start + 1, t;
      }
      fn := fn.(line := toks[start].line, doc := if start in docs then docs[start] else "");
      tables := t;
      if byDefault {
        tables := tables.(exported := t.exported["default" := fn.(name := "default")]);
      } else if exports {
        tables := tables.(exported := t.exported[fn.name := fn]);
      } else {
        tables := tables.(locals := t.locals[fn.name := fn]);
      }
      next := after;
    }

    /** scriptFunctions, after the tokenizer. */
    method Functions() returns (exported: map<string, ScriptFunction>, cut: bool)
      modifies this
      ensures Exported(exported, cut) == Parse(toks, docs, old(steps))
    {
      hide TopLevel, WithLists;
      var i: nat, depth: nat, t := 0, 0, NO_TABLES;
      while i < |toks|
        invariant ParseFrom(toks, docs, i, depth, t, steps) == ParseFrom(toks, docs, 0, 0, NO_TABLES, old(steps))
        decreases steps
      {
        var ok := Spend();
        if !ok {
          return t.exported, true;
        }
        var text := At(toks, i);
        if Opens(text) {
          depth, i := depth + 1, i + 1;
        } else if Closes(text) {
          if depth > 0 {
            depth := depth - 1;
          }
          i := i + 1;
        } else if depth != 0 {
          i := i + 1;
        } else {
          i, t := TopLevelAt(i, t);
        }
      }
      exported := ApplyLists(t);
      cut := steps == 0;
    }

    /** Export lists name locals. */
    method ApplyLists(t: Tables) returns (exported: map<string, ScriptFunction>)
      ensures exported == WithLists(t.exported, t.locals, t.lists)
    {
      exported := t.exported;
      assert t.lists[0..] == t.lists;
      for k := 0 to |t.lists|
        invariant WithLists(exported, t.locals, t.lists[k..]) == WithLists(t.exported, t.locals, t.lists)
      {
        var pair := t.lists[k];
        assert t.lists[k..][0] == pair && t.lists[k..][1..] == t.lists[k + 1..];
        if pair.0 in t.locals {
          exported := exported[pair.1 := t.locals[pair.0].(name := pair.1)];
        }
      }
    }
  }
}

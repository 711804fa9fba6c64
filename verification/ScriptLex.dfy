/**
 The tokens of a TS/JS source, which is a sequence of bytes: what each scan returns, and what holds
 of them.
 */
module ScriptLex {
  import opened ScriptParse

  const MAX_TOKENS: nat := 0x10_0000
  const MAX_TEMPLATE_DEPTH: nat := 64
  const MAX_DOC_BYTES: nat := 16384

  predicate IdentPart(c: char) {
    IdentStart(c) || '0' <= c <= '9'
  }

  predicate Digit(c: char) {
    '0' <= c <= '9'
  }

  predicate Blank(c: char) {
    c == ' ' || c == '\t' || c == '\r' || c == '\U{0C}' || c == '\U{0B}'
  }

  /** src continues with the two bytes a, b at i. */
  predicate Pair(src: string, i: nat, a: char, b: char) {
    i + 1 < |src| && src[i] == a && src[i + 1] == b
  }

  // ----- scans to the end of one construct -----

  /** The end of the line of index i. */
  function LineEnd(src: string, i: nat): (r: nat)
    ensures i <= |src| ==> i <= r <= |src|
    decreases |src| - i
  {
    if i >= |src| || src[i] == '\n' then i else LineEnd(src, i + 1)
  }

  /** The end of a block comment: the star of its closing mark, or the end of the source. */
  function CommentEnd(src: string, i: nat): (r: nat)
    requires i <= |src|
    ensures i <= r <= |src| && (r == |src| || Pair(src, r, '*', '/'))
    decreases |src| - i
  {
    if i == |src| || Pair(src, i, '*', '/') then i else CommentEnd(src, i + 1)
  }

  /** The closing quote of a string literal, its line end, or the end; an escaped line break ends it too. */
  function StringStop(src: string, i: nat, quote: char): (r: nat)
    requires i <= |src|
    ensures i <= r <= |src|
    decreases |src| - i
  {
    if i == |src| || src[i] == quote || src[i] == '\n' then i
    else if src[i] == '\\' && i + 1 < |src| && src[i + 1] != '\n' then StringStop(src, i + 2, quote)
    else StringStop(src, i + 1, quote)
  }

  function StringEnd(src: string, i: nat): (r: nat)
    requires i < |src|
    ensures i < r <= |src|
  {
    var stop := StringStop(src, i + 1, src[i]);
    if stop < |src| && src[stop] == src[i] then stop + 1 else stop
  }

  /** The same inside a template substitution, where an escape skips whatever follows. */
  function QuotedStop(src: string, i: nat, quote: char): (r: nat)
    ensures r >= i
    decreases |src| - i
  {
    if i >= |src| || src[i] == quote || src[i] == '\n' then i
    else QuotedStop(src, if src[i] == '\\' then i + 2 else i + 1, quote)
  }

  /** The end of a regular expression literal whose body starts at i, without its flags. */
  function RegexStop(src: string, i: nat, inClass: bool): (r: nat)
    requires i <= |src|
    ensures i <= r <= |src|
    decreases |src| - i
  {
    if i == |src| || src[i] == '\n' then i
    else if src[i] == '\\' && i + 1 < |src| then RegexStop(src, i + 2, inClass)
    else if src[i] == '/' && !inClass then i + 1
    else RegexStop(src, i + 1, if src[i] == '[' then true else if src[i] == ']' then false else inClass)
  }

  function IdentEnd(src: string, i: nat): (r: nat)
    requires i <= |src|
    ensures i <= r <= |src| && (i < |src| && IdentPart(src[i]) ==> r > i)
    decreases |src| - i
  {
    if i < |src| && IdentPart(src[i]) then IdentEnd(src, i + 1) else i
  }

  function NumberEnd(src: string, i: nat): (r: nat)
    requires i <= |src|
    ensures i <= r <= |src| && (i < |src| && Digit(src[i]) ==> r > i)
    decreases |src| - i
  {
    if i < |src| && (IdentPart(src[i]) || src[i] == '.') then NumberEnd(src, i + 1) else i
  }

  /** The bytes of the punctuation at i: "=>", "...", "?.", or one byte. */
  function PunctuationLength(src: string, i: nat): (n: nat)
    requires i < |src|
    ensures 1 <= n <= 3 && i + n <= |src|
  {
    if Pair(src, i, '=', '>') then 2
    else if Pair(src, i, '.', '.') && Pair(src, i + 1, '.', '.') then 3
    else if Pair(src, i, '?', '.') then 2
    else 1
  }

  // ----- template literals -----

  /** The index after a template literal or substitution, and whether the nesting bound was met. */
  datatype Skipped = Skipped(next: nat, cut: bool)

  /** The template literal whose backtick is at i, `depth` templates and substitutions deep. */
  function Template(src: string, i: nat, depth: nat, limit: nat): (r: Skipped)
    ensures r.next <= |src| && (i < |src| ==> r.next > i) && (r.cut ==> r.next == |src|)
    decreases |src| - i, 0
  {
    if depth > limit || i >= |src| then Skipped(|src|, depth > limit) else TemplateRest(src, i + 1, depth, limit)
  }

  function TemplateRest(src: string, i: nat, depth: nat, limit: nat): (r: Skipped)
    ensures r.next <= |src| && (i <= |src| ==> r.next >= i) && (r.cut ==> r.next == |src|)
    decreases |src| - i, 0
  {
    if i >= |src| then Skipped(|src|, false)
    else if src[i] == '\\' then TemplateRest(src, i + 2, depth, limit)
    else if src[i] == '`' then Skipped(i + 1, false)
    else if Pair(src, i, '$', '{') then
      var s := Substitution(src, i + 2, depth + 1, limit);
      if s.cut then s else TemplateRest(src, s.next, depth, limit)
    else TemplateRest(src, i + 1, depth, limit)
  }

  /** The substitution whose body starts at i. */
  function Substitution(src: string, i: nat, depth: nat, limit: nat): (r: Skipped)
    requires i <= |src|
    ensures r.next <= |src| && r.next >= i && (r.cut ==> r.next == |src|)
    decreases |src| - i, 2
  {
    if depth > limit then Skipped(|src|, true) else SubstitutionRest(src, i, 1, depth, limit)
  }

  function SubstitutionRest(src: string, i: nat, braces: nat, depth: nat, limit: nat): (r: Skipped)
    requires braces > 0
    ensures r.next <= |src| && (i <= |src| ==> r.next >= i) && (r.cut ==> r.next == |src|)
    decreases |src| - i, 1
  {
    if i >= |src| then Skipped(|src|, false)
    else
      var c := src[i];
      if c == '{' then SubstitutionRest(src, i + 1, braces + 1, depth, limit)
      else if c == '}' then
        if braces == 1 then Skipped(i + 1, false) else SubstitutionRest(src, i + 1, braces - 1, depth, limit)
      else if c == '`' then
        var t := Template(src, i, depth + 1, limit);
        if t.cut then t else SubstitutionRest(src, t.next, braces, depth, limit)
      else if c == '"' || c == '\'' then SubstitutionRest(src, QuotedStop(src, i + 1, c) + 1, braces, depth, limit)
      else if Pair(src, i, '/', '/') then SubstitutionRest(src, LineEnd(src, i + 2), braces, depth, limit)
      else if Pair(src, i, '/', '*') then
        var end := CommentEnd(src, i + 2);
        if end == |src| then Skipped(|src|, false) else SubstitutionRest(src, end + 2, braces, depth, limit)
      else SubstitutionRest(src, i + 1, braces, depth, limit)
  }

  /** A literal that is not cut ends at the same place whatever larger nesting is allowed. */
  lemma {:induction false} TemplateDeeper(src: string, i: nat, depth: nat, limit: nat, larger: nat)
    requires limit <= larger && !Template(src, i, depth, limit).cut
    ensures Template(src, i, depth, larger) == Template(src, i, depth, limit)
    decreases |src| - i, 0
  {
    if i < |src| {
      TemplateRestDeeper(src, i + 1, depth, limit, larger);
    }
  }

  lemma {:induction false} TemplateRestDeeper(src: string, i: nat, depth: nat, limit: nat, larger: nat)
    requires limit <= larger && !TemplateRest(src, i, depth, limit).cut
    ensures TemplateRest(src, i, depth, larger) == TemplateRest(src, i, depth, limit)
    decreases |src| - i, 0
  {
    if i >= |src| || src[i] == '`' {
    } else if src[i] == '\\' {
      TemplateRestDeeper(src, i + 2, depth, limit, larger);
    } else if Pair(src, i, '$', '{') {
      SubstitutionDeeper(src, i + 2, depth + 1, limit, larger);
      TemplateRestDeeper(src, Substitution(src, i + 2, depth + 1, limit).next, depth, limit, larger);
    } else {
      TemplateRestDeeper(src, i + 1, depth, limit, larger);
    }
  }

  lemma {:induction false} SubstitutionDeeper(src: string, i: nat, depth: nat, limit: nat, larger: nat)
    requires i <= |src| && limit <= larger && !Substitution(src, i, depth, limit).cut
    ensures Substitution(src, i, depth, larger) == Substitution(src, i, depth, limit)
    decreases |src| - i, 2
  {
    SubstitutionRestDeeper(src, i, 1, depth, limit, larger);
  }

  lemma {:induction false} SubstitutionRestDeeper(src: string, i: nat, braces: nat, depth: nat, limit: nat, larger: nat)
    requires braces > 0 && limit <= larger && !SubstitutionRest(src, i, braces, depth, limit).cut
    ensures SubstitutionRest(src, i, braces, depth, larger) == SubstitutionRest(src, i, braces, depth, limit)
    decreases |src| - i, 1
  {
    if i < |src| {
      var c := src[i];
      if c == '{' {
        SubstitutionRestDeeper(src, i + 1, braces + 1, depth, limit, larger);
      } else if c == '}' {
        if braces > 1 {
          SubstitutionRestDeeper(src, i + 1, braces - 1, depth, limit, larger);
        }
      } else if c == '`' {
        TemplateDeeper(src, i, depth + 1, limit, larger);
        SubstitutionRestDeeper(src, Template(src, i, depth + 1, limit).next, braces, depth, limit, larger);
      } else if c == '"' || c == '\'' {
        SubstitutionRestDeeper(src, QuotedStop(src, i + 1, c) + 1, braces, depth, limit, larger);
      } else if Pair(src, i, '/', '/') {
        SubstitutionRestDeeper(src, LineEnd(src, i + 2), braces, depth, limit, larger);
      } else if Pair(src, i, '/', '*') {
        if CommentEnd(src, i + 2) < |src| {
          SubstitutionRestDeeper(src, CommentEnd(src, i + 2) + 2, braces, depth, limit, larger);
        }
      } else {
        SubstitutionRestDeeper(src, i + 1, braces, depth, limit, larger);
      }
    }
  }

  // ----- one step of the tokenizer -----

  /** A token as a slice of the source. */
  datatype Span = Span(start: nat, end: nat, line: nat)

  function Newlines(s: string): nat {
    if s == [] then 0 else (if s[0] == '\n' then 1 else 0) + Newlines(s[1..])
  }

  predicate RegexKeyword(t: string) {
    t in {"return", "typeof", "instanceof", "in", "of", "new", "delete", "void", "throw", "case", "do", "else", "yield", "await"}
  }

  /** Whether a slash may start a regular expression literal after the token `prev` ("" for none). */
  predicate RegexAllowed(prev: string) {
    if prev == "" then true
    else if IdentStart(prev[0]) || Digit(prev[0]) then RegexKeyword(prev)
    else !(prev[0] == '"' || prev[0] == '\'' || prev[0] == '`' || prev == ")" || prev == "]" || prev == "}"
           || (prev[0] == '/' && |prev| > 1))
  }

  /** What stands at i: nothing to keep (perhaps a doc comment), a token, or a template nested too deep. */
  datatype Piece = Gap(next: nat, lines: nat, doc: string) | Lexeme(end: nat, lines: nat) | TooDeep

  function PieceAt(src: string, i: nat, prev: string, limit: nat): (p: Piece)
    requires i < |src|
    ensures p.Gap? ==> p.next > i
    ensures p.Lexeme? ==> i < p.end <= |src|
  {
    var c := src[i];
    if c == '\n' then Gap(i + 1, 1, "")
    else if Blank(c) then Gap(i + 1, 0, "")
    else if Pair(src, i, '/', '/') then Gap(LineEnd(src, i + 2), 0, "")
    else if Pair(src, i, '/', '*') then
      var end := CommentEnd(src, i + 2);
      var comment := src[i..end];
      Gap(end + 2, Newlines(comment), if "/**" <= comment && |comment| <= MAX_DOC_BYTES then comment else "")
    else if c == '"' || c == '\'' then Lexeme(StringEnd(src, i), 0)
    else if c == '`' then
      var t := Template(src, i, 1, limit);
      if t.cut then TooDeep else Lexeme(t.next, Newlines(src[i..t.next]))
    else if c == '/' && RegexAllowed(prev) then Lexeme(IdentEnd(src, RegexStop(src, i + 1, false)), 0)
    else if IdentStart(c) then Lexeme(IdentEnd(src, i), 0)
    else if Digit(c) then Lexeme(NumberEnd(src, i), 0)
    else Lexeme(i + PunctuationLength(src, i), 0)
  }

  lemma PieceDeeper(src: string, i: nat, prev: string, limit: nat, larger: nat)
    requires i < |src| && limit <= larger && !PieceAt(src, i, prev, limit).TooDeep?
    ensures PieceAt(src, i, prev, larger) == PieceAt(src, i, prev, limit)
  {
    hide Template, RegexAllowed;
    if src[i] == '`' {
      TemplateDeeper(src, i, 1, limit, larger);
    }
  }

  // ----- the tokenizer -----

  datatype Lexer = Lexer(i: nat, line: nat, pending: string, spans: seq<Span>, docs: map<nat, string>)

  const LEX_START := Lexer(0, 1, "", [], map[])

  /** The tokens lie in the source, in order, without overlap, and none is empty. */
  predicate InOrder(src: string, l: Lexer) {
    && (forall k :: 0 <= k < |l.spans| ==> l.spans[k].start < l.spans[k].end <= |src| && l.spans[k].end <= l.i)
    && (forall j, k :: 0 <= j < k < |l.spans| ==> l.spans[j].end <= l.spans[k].start)
  }

  function Text(src: string, s: Span): string {
    if s.start <= s.end <= |src| then src[s.start..s.end] else ""
  }

  function PrevText(src: string, spans: seq<Span>): string {
    if spans == [] then "" else Text(src, spans[|spans| - 1])
  }

  function Apply(l: Lexer, p: Piece): Lexer
    requires !p.TooDeep?
  {
    match p
    case Gap(next, lines, doc) => l.(i := next, line := l.line + lines, pending := if doc != "" then doc else l.pending)
    case Lexeme(end, lines) =>
      Lexer(end, l.line + lines, "", l.spans + [Span(l.i, end, l.line)],
            if l.pending != "" then l.docs[|l.spans| := l.pending] else l.docs)
  }

  /** The tokens and doc comments, and whether a bound stopped the tokenizer. */
  datatype Lexed = Lexed(spans: seq<Span>, docs: map<nat, string>, cut: bool)

  function LexFrom(src: string, l: Lexer, maxTokens: nat, limit: nat): Lexed
    decreases |src| - l.i
  {
    if l.i >= |src| then Lexed(l.spans, l.docs, false)
    else if |l.spans| == maxTokens then Lexed(l.spans, l.docs, true)
    else
      var p := PieceAt(src, l.i, PrevText(src, l.spans), limit);
      if p.TooDeep? then Lexed(l.spans, l.docs, true) else LexFrom(src, Apply(l, p), maxTokens, limit)
  }

  function Lex(src: string, maxTokens: nat, limit: nat): Lexed {
    LexFrom(src, LEX_START, maxTokens, limit)
  }

  lemma ApplyInOrder(src: string, l: Lexer, prev: string, limit: nat)
    requires l.i < |src| && InOrder(src, l) && !PieceAt(src, l.i, prev, limit).TooDeep?
    ensures InOrder(src, Apply(l, PieceAt(src, l.i, prev, limit)))
  {
    hide RegexAllowed, Template, Newlines;
  }

  lemma {:induction false} LexInOrder(src: string, l: Lexer, maxTokens: nat, limit: nat)
    requires InOrder(src, l) && |l.spans| <= maxTokens
    ensures var r := LexFrom(src, l, maxTokens, limit);
            && InOrder(src, Lexer(if l.i > |src| then l.i else |src|, 0, "", r.spans, r.docs)) && |r.spans| <= maxTokens
    decreases |src| - l.i
  {
    hide PieceAt;
    if l.i < |src| && |l.spans| < maxTokens {
      var p := PieceAt(src, l.i, PrevText(src, l.spans), limit);
      if !p.TooDeep? {
        ApplyInOrder(src, l, PrevText(src, l.spans), limit);
        PieceBounds(src, l.i, PrevText(src, l.spans), limit);
        LexInOrder(src, Apply(l, p), maxTokens, limit);
        LexSpansFit(src, Apply(l, p), maxTokens, limit);
      }
    }
  }

  lemma PieceBounds(src: string, i: nat, prev: string, limit: nat)
    requires i < |src|
    ensures var p := PieceAt(src, i, prev, limit); p.Gap? ==> p.next > i
  {}

  /** Every token ends within the source, whatever the last comment skipped. */
  lemma {:induction false} LexSpansFit(src: string, l: Lexer, maxTokens: nat, limit: nat)
    requires forall k :: 0 <= k < |l.spans| ==> l.spans[k].end <= |src|
    ensures forall k :: 0 <= k < |LexFrom(src, l, maxTokens, limit).spans| ==> LexFrom(src, l, maxTokens, limit).spans[k].end <= |src|
    decreases |src| - l.i
  {
    hide PieceAt;
    if l.i < |src| && |l.spans| != maxTokens {
      var p := PieceAt(src, l.i, PrevText(src, l.spans), limit);
      if !p.TooDeep? {
        LexSpansFit(src, Apply(l, p), maxTokens, limit);
      }
    }
  }

  /** Tokens without a cut are the tokens under any larger bounds. */
  lemma {:induction false} LexFromLarger(src: string, l: Lexer, maxTokens: nat, limit: nat, moreTokens: nat, larger: nat)
    requires maxTokens <= moreTokens && limit <= larger && |l.spans| <= maxTokens && !LexFrom(src, l, maxTokens, limit).cut
    ensures LexFrom(src, l, moreTokens, larger) == LexFrom(src, l, maxTokens, limit)
    decreases |src| - l.i
  {
    hide PieceAt;
    if l.i < |src| {
      var prev := PrevText(src, l.spans);
      PieceDeeper(src, l.i, prev, limit, larger);
      LexFromLarger(src, Apply(l, PieceAt(src, l.i, prev, limit)), maxTokens, limit, moreTokens, larger);
    }
  }

  // ----- the exported functions of a source -----

  function Tokens(src: string, spans: seq<Span>): (toks: seq<Token>)
    ensures |toks| == |spans|
  {
    seq(|spans|, k requires 0 <= k < |spans| => Token(Text(src, spans[k]), spans[k].line))
  }

  /** The bounds of one enumeration. */
  datatype Bounds = Bounds(tokens: nat, depth: nat, steps: nat) {
    predicate Within(larger: Bounds) {
      tokens <= larger.tokens && depth <= larger.depth && steps <= larger.steps
    }
  }

  /** scriptFunctions under some bounds. */
  function FunctionsOf(src: string, b: Bounds): Exported {
    var lexed := Lex(src, b.tokens, b.depth);
    var parsed := Parse(Tokens(src, lexed.spans), lexed.docs, b.steps);
    Exported(parsed.functions, lexed.cut || parsed.cut)
  }

  /**
   The bounds are invisible unless a cut is reported: without one, the exported functions are
   those of the same source under any larger bounds on tokens, nesting and token visits.
   */
  lemma BoundsInvisible(src: string, b: Bounds, larger: Bounds)
    requires b.Within(larger) && !FunctionsOf(src, b).cut
    ensures FunctionsOf(src, larger) == FunctionsOf(src, b)
  {
    hide Parse, LexFrom;
    LexFromLarger(src, LEX_START, b.tokens, b.depth, larger.tokens, larger.depth);
    var lexed := Lex(src, b.tokens, b.depth);
    BudgetInvisible(Tokens(src, lexed.spans), lexed.docs, b.steps, larger.steps);
  }

  // ----- bounds that never cut -----

  /** Each level of nesting takes at least a byte for every two levels of depth. */
  lemma {:induction false} TemplateShallow(src: string, i: nat, depth: nat, limit: nat)
    requires i < |src| && depth + 2 * (|src| - i) <= limit
    ensures !Template(src, i, depth, limit).cut
    decreases |src| - i, 0
  {
    TemplateRestShallow(src, i + 1, depth, limit);
  }

  lemma {:induction false} TemplateRestShallow(src: string, i: nat, depth: nat, limit: nat)
    requires i <= |src| ==> depth + 2 * (|src| - i) <= limit
    ensures !TemplateRest(src, i, depth, limit).cut
    decreases |src| - i, 0
  {
    if i >= |src| || src[i] == '`' {
    } else if src[i] == '\\' {
      TemplateRestShallow(src, i + 2, depth, limit);
    } else if Pair(src, i, '$', '{') {
      SubstitutionRestShallow(src, i + 2, 1, depth + 1, limit);
      TemplateRestShallow(src, Substitution(src, i + 2, depth + 1, limit).next, depth, limit);
    } else {
      TemplateRestShallow(src, i + 1, depth, limit);
    }
  }

  lemma {:induction false} SubstitutionRestShallow(src: string, i: nat, braces: nat, depth: nat, limit: nat)
    requires braces > 0 && (i <= |src| ==> depth + 1 + 2 * (|src| - i) <= limit)
    ensures !SubstitutionRest(src, i, braces, depth, limit).cut
    decreases |src| - i, 1
  {
    if i < |src| {
      var c := src[i];
      if c == '{' {
        SubstitutionRestShallow(src, i + 1, braces + 1, depth, limit);
      } else if c == '}' {
        if braces > 1 {
          SubstitutionRestShallow(src, i + 1, braces - 1, depth, limit);
        }
      } else if c == '`' {
        TemplateShallow(src, i, depth + 1, limit);
        SubstitutionRestShallow(src, Template(src, i, depth + 1, limit).next, braces, depth, limit);
      } else if c == '"' || c == '\'' {
        SubstitutionRestShallow(src, QuotedStop(src, i + 1, c) + 1, braces, depth, limit);
      } else if Pair(src, i, '/', '/') {
        SubstitutionRestShallow(src, LineEnd(src, i + 2), braces, depth, limit);
      } else if Pair(src, i, '/', '*') {
        if CommentEnd(src, i + 2) < |src| {
          SubstitutionRestShallow(src, CommentEnd(src, i + 2) + 2, braces, depth, limit);
        }
      } else {
        SubstitutionRestShallow(src, i + 1, braces, depth, limit);
      }
    }
  }

  lemma PieceShallow(src: string, i: nat, prev: string, limit: nat)
    requires i < |src| && 1 + 2 * |src| <= limit
    ensures !PieceAt(src, i, prev, limit).TooDeep?
  {
    hide Template, RegexAllowed;
    if src[i] == '`' {
      TemplateShallow(src, i, 1, limit);
    }
  }

  lemma {:induction false} LexWhole(src: string, l: Lexer, maxTokens: nat, limit: nat)
    requires |l.spans| <= l.i && |src| <= maxTokens && 1 + 2 * |src| <= limit
    ensures !LexFrom(src, l, maxTokens, limit).cut
    decreases |src| - l.i
  {
    hide PieceAt;
    if l.i < |src| {
      var prev := PrevText(src, l.spans);
      PieceShallow(src, l.i, prev, limit);
      LexWhole(src, Apply(l, PieceAt(src, l.i, prev, limit)), maxTokens, limit);
    }
  }

  /** Bounds large enough for a source, whatever it holds. */
  function Enough(src: string): Bounds {
    var spans := Lex(src, |src|, 1 + 2 * |src|).spans;
    Bounds(|src|, 1 + 2 * |src|, StepCost(Tokens(src, spans)) * |spans| + 1)
  }

  /** Every source has bounds that cut nothing: without bounds, the tokenizer and the parse end. */
  lemma EnoughNeverCuts(src: string)
    ensures !FunctionsOf(src, Enough(src)).cut
  {
    hide LexFrom, Parse;
    LexWhole(src, LEX_START, |src|, 1 + 2 * |src|);
    var lexed := Lex(src, |src|, 1 + 2 * |src|);
    ParseEnough(Tokens(src, lexed.spans), lexed.docs, Enough(src).steps);
  }

  /** So an enumeration that reports no cut found exactly the functions of the whole source. */
  lemma UncutIsWhole(src: string, b: Bounds)
    requires !FunctionsOf(src, b).cut
    ensures FunctionsOf(src, b) == FunctionsOf(src, Enough(src))
  {
    hide FunctionsOf;
    EnoughNeverCuts(src);
    var e := Enough(src);
    var both := Bounds(if b.tokens > e.tokens then b.tokens else e.tokens, if b.depth > e.depth then b.depth else e.depth,
                       if b.steps > e.steps then b.steps else e.steps);
    BoundsInvisible(src, b, both);
    BoundsInvisible(src, e, both);
  }

  /** The tokens of any source are ordered, disjoint, nonempty slices of it. */
  lemma TokensAreSlices(src: string, maxTokens: nat, limit: nat)
    ensures InOrder(src, Lexer(|src|, 0, "", Lex(src, maxTokens, limit).spans, map[]))
    ensures |Lex(src, maxTokens, limit).spans| <= maxTokens
  {
    hide LexFrom;
    LexInOrder(src, LEX_START, maxTokens, limit);
  }
}

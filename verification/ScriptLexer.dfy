/** The tokenizer as the host runs it: loops over bytes, each giving what its function says, and the enumeration. */
module ScriptLexer {
  import opened ScriptParse
  import opened ScriptLex
  import ScriptParser

  method EndOfLine(src: string, start: nat) returns (i: nat)
    ensures i == LineEnd(src, start)
  {
    i := start;
    while i < |src| && src[i] != '\n'
      invariant LineEnd(src, i) == LineEnd(src, start)
    {
      i := i + 1;
    }
  }

  method EndOfComment(src: string, start: nat) returns (i: nat)
    requires start <= |src|
    ensures i == CommentEnd(src, start)
  {
    i := start;
    while i < |src| && !Pair(src, i, '*', '/')
      invariant i <= |src| && CommentEnd(src, i) == CommentEnd(src, start)
    {
      i := i + 1;
    }
  }

  method EndOfString(src: string, start: nat) returns (i: nat)
    requires start < |src|
    ensures i == StringEnd(src, start)
  {
    var c := src[start];
    i := start + 1;
    while i < |src| && src[i] != c && src[i] != '\n'
      invariant i <= |src| && StringStop(src, i, c) == StringStop(src, start + 1, c)
    {
      if src[i] == '\\' && i + 1 < |src| && src[i + 1] != '\n' {
        i := i + 1;
      }
      i := i + 1;
    }
    if i < |src| && src[i] == c {
      i := i + 1;
    }
  }

  method EndOfRegex(src: string, start: nat) returns (i: nat)
    requires start < |src|
    ensures i == IdentEnd(src, RegexStop(src, start + 1, false))
  {
    i := start + 1;
    var inClass := false;
    ghost var stop := RegexStop(src, start + 1, false);
    while i < |src| && src[i] != '\n'
      invariant i <= |src| && RegexStop(src, i, inClass) == stop
    {
      if src[i] == '\\' && i + 1 < |src| {
        i := i + 2;
        continue;
      }
      if src[i] == '[' {
        inClass := true;
      } else if src[i] == ']' {
        inClass := false;
      } else if src[i] == '/' && !inClass {
        i := i + 1;
        assert i == stop;
        i := EndOfIdentifier(src, i);
        return;
      }
      i := i + 1;
    }
    i := EndOfIdentifier(src, i);
  }

  method EndOfIdentifier(src: string, start: nat) returns (i: nat)
    requires start <= |src|
    ensures i == IdentEnd(src, start)
  {
    i := start;
    while i < |src| && IdentPart(src[i])
      invariant i <= |src| && IdentEnd(src, i) == IdentEnd(src, start)
    {
      i := i + 1;
    }
  }

  method EndOfNumber(src: string, start: nat) returns (i: nat)
    requires start <= |src|
    ensures i == NumberEnd(src, start)
  {
    i := start;
    while i < |src| && (IdentPart(src[i]) || src[i] == '.')
      invariant i <= |src| && NumberEnd(src, i) == NumberEnd(src, start)
    {
      i := i + 1;
    }
  }

  /** skipTemplate, bounded by `limit` levels. */
  method SkipTemplate(src: string, start: nat, depth: nat, limit: nat) returns (next: nat, cut: bool)
    ensures Skipped(next, cut) == Template(src, start, depth, limit)
    decreases |src| - start, 0
  {
    if depth > limit {
      return |src|, true;
    }
    var i := start + 1;
    while i < |src|
      invariant i > start
      invariant start < |src| ==> TemplateRest(src, i, depth, limit) == TemplateRest(src, start + 1, depth, limit)
      decreases |src| - i
    {
      if src[i] == '\\' {
        i := i + 2;
      } else if src[i] == '`' {
        return i + 1, false;
      } else if Pair(src, i, '$', '{') {
        var after, deep := SkipSubstitution(src, i + 2, depth + 1, limit);
        if deep {
          return after, true;
        }
        i := after;
      } else {
        i := i + 1;
      }
    }
    return |src|, false;
  }

  /** skipSubstitution, with its own strings, comments and nested templates. */
  method SkipSubstitution(src: string, start: nat, depth: nat, limit: nat) returns (next: nat, cut: bool)
    requires start <= |src|
    ensures Skipped(next, cut) == Substitution(src, start, depth, limit)
    decreases |src| - start, 1
  {
    hide Template, QuotedStop, LineEnd, CommentEnd;
    if depth > limit {
      return |src|, true;
    }
    var braces: nat := 1;
    var i := start;
    while i < |src|
      invariant i >= start && braces > 0
      invariant SubstitutionRest(src, i, braces, depth, limit) == SubstitutionRest(src, start, 1, depth, limit)
      decreases |src| - i
    {
      var c := src[i];
      if c == '{' {
        braces, i := braces + 1, i + 1;
      } else if c == '}' {
        if braces == 1 {
          return i + 1, false;
        }
        braces, i := braces - 1, i + 1;
      } else if c == '`' {
        var after, deep := SkipTemplate(src, i, depth + 1, limit);
        if deep {
          return after, true;
        }
        i := after;
      } else if c == '"' || c == '\'' {
        i := EndOfQuoted(src, i + 1, c);
        i := i + 1;
      } else if Pair(src, i, '/', '/') {
        i := EndOfLine(src, i + 2);
      } else if Pair(src, i, '/', '*') {
        var end := EndOfComment(src, i + 2);
        if end == |src| {
          return |src|, false;
        }
        i := end + 2;
      } else {
        i := i + 1;
      }
    }
    return |src|, false;
  }

  method EndOfQuoted(src: string, start: nat, quote: char) returns (i: nat)
    ensures i == QuotedStop(src, start, quote)
  {
    i := start;
    while i < |src| && src[i] != quote && src[i] != '\n'
      invariant i >= start && QuotedStop(src, i, quote) == QuotedStop(src, start, quote)
      decreases |src| - i
    {
      if src[i] == '\\' {
        i := i + 1;
      }
      i := i + 1;
    }
  }

  /** The tokenizer's case analysis at one index. */
  method ReadPiece(src: string, i: nat, prev: string, limit: nat) returns (p: Piece)
    requires i < |src|
    ensures p == PieceAt(src, i, prev, limit)
  {
    hide Template, RegexAllowed, Newlines, StringEnd, RegexStop, IdentEnd, NumberEnd, CommentEnd, LineEnd;
    var c := src[i];
    if c == '\n' {
      p := Gap(i + 1, 1, "");
    } else if Blank(c) {
      p := Gap(i + 1, 0, "");
    } else if Pair(src, i, '/', '/') {
      var end := EndOfLine(src, i + 2);
      p := Gap(end, 0, "");
    } else if Pair(src, i, '/', '*') {
      var end := EndOfComment(src, i + 2);
      var comment := src[i..end];
      p := Gap(end + 2, Newlines(comment), if "/**" <= comment && |comment| <= MAX_DOC_BYTES then comment else "");
    } else if c == '"' || c == '\'' {
      var end := EndOfString(src, i);
      p := Lexeme(end, 0);
    } else if c == '`' {
      var end, cut := SkipTemplate(src, i, 1, limit);
      p := if cut then TooDeep else Lexeme(end, Newlines(src[i..end]));
    } else if c == '/' && RegexAllowed(prev) {
      var end := EndOfRegex(src, i);
      p := Lexeme(end, 0);
    } else if IdentStart(c) {
      var end := EndOfIdentifier(src, i);
      p := Lexeme(end, 0);
    } else if Digit(c) {
      var end := EndOfNumber(src, i);
      p := Lexeme(end, 0);
    } else {
      p := Lexeme(i + PunctuationLength(src, i), 0);
    }
  }

  /** scriptTokenize: tokens as slices of the source, doc comments by token, and whether a bound cut it. */
  method Tokenize(src: string, maxTokens: nat, limit: nat) returns (spans: seq<Span>, docs: map<nat, string>, cut: bool)
    ensures Lexed(spans, docs, cut) == Lex(src, maxTokens, limit)
    ensures |spans| <= maxTokens
  {
    hide PieceAt;
    TokensAreSlices(src, maxTokens, limit);
    spans, docs, cut := [], map[], false;
    var i, line, pending := 0, 1, "";
    while i < |src|
      invariant LexFrom(src, Lexer(i, line, pending, spans, docs), maxTokens, limit) == Lex(src, maxTokens, limit)
      invariant !cut
      decreases |src| - i
    {
      if |spans| == maxTokens {
        return spans, docs, true;
      }
      var p := ReadPiece(src, i, PrevText(src, spans), limit);
      match p {
        case TooDeep => return spans, docs, true;
        case Gap(next, lines, doc) =>
          if doc != "" {
            pending := doc;
          }
          i, line := next, line + lines;
        case Lexeme(end, lines) =>
          if pending != "" {
            docs, pending := docs[|spans| := pending], "";
          }
          spans := spans + [Span(i, end, line)];
          i, line := end, line + lines;
      }
    }
  }

  /** scriptFunctions: the exported functions of a source, and whether a bound stopped the scan or the parse. */
  method ExportedFunctions(src: string) returns (exported: map<string, ScriptFunction>, cut: bool)
    ensures exists steps :: Exported(exported, cut) == FunctionsOf(src, Bounds(MAX_TOKENS, MAX_TEMPLATE_DEPTH, steps))
                            && steps == Budget(Tokens(src, Lex(src, MAX_TOKENS, MAX_TEMPLATE_DEPTH).spans))
    ensures !cut ==> exported == FunctionsOf(src, Enough(src)).functions
  {
    hide Parse, LexFrom;
    var spans, docs, lexCut := Tokenize(src, MAX_TOKENS, MAX_TEMPLATE_DEPTH);
    var toks := Tokens(src, spans);
    var parser := new ScriptParser.Parser(toks, docs);
    exported, cut := parser.Functions();
    cut := lexCut || cut;
    ghost var b := Bounds(MAX_TOKENS, MAX_TEMPLATE_DEPTH, Budget(toks));
    assert Exported(exported, cut) == FunctionsOf(src, b);
    if !cut {
      UncutIsWhole(src, b);
    }
  }
}

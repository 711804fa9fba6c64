/** The text of a TS/JS source, token by token, and what the tokenizer reads of each. */
module ScriptText {
  import opened ScriptParse
  import opened ScriptLex

  // ----- what is written -----

  /** The rest of a template literal, up to its closing backtick. */
  datatype Literal = Closed | Char(c: char, rest: Literal) | Escape(c: char, rest: Literal) | Hole(code: Code, rest: Literal)

  /** The rest of a substitution, or of braces within one, up to the closing brace. */
  datatype Code = Done | Byte(c: char, more: Code) | Braces(inner: Code, more: Code) | Quotes(quote: char, body: string, more: Code)
                | Line(comment: string, more: Code) | Block(comment: string, more: Code) | Nested(template: Literal, more: Code)

  function TemplateText(t: Literal): (s: string)
    ensures s != []
  {
    match t
    case Closed => "`"
    case Char(c, rest) => [c] + TemplateText(rest)
    case Escape(c, rest) => ['\\', c] + TemplateText(rest)
    case Hole(code, rest) => "${" + CodeText(code) + TemplateText(rest)
  }

  function CodeText(s: Code): (text: string)
    ensures text != []
  {
    match s
    case Done => "}"
    case Byte(c, more) => [c] + CodeText(more)
    case Braces(inner, more) => "{" + CodeText(inner) + CodeText(more)
    case Quotes(quote, body, more) => [quote] + body + [quote] + CodeText(more)
    case Line(comment, more) => "//" + comment + "\n" + CodeText(more)
    case Block(comment, more) => "/*" + comment + "*/" + CodeText(more)
    case Nested(template, more) => "`" + TemplateText(template) + CodeText(more)
  }

  /** How deep templates and substitutions nest within. */
  function TemplateDepth(t: Literal): nat {
    match t
    case Closed => 0
    case Char(_, rest) => TemplateDepth(rest)
    case Escape(_, rest) => TemplateDepth(rest)
    case Hole(code, rest) => Larger(1 + CodeDepth(code), TemplateDepth(rest))
  }

  function CodeDepth(s: Code): nat {
    match s
    case Done => 0
    case Byte(_, more) => CodeDepth(more)
    case Braces(inner, more) => Larger(CodeDepth(inner), CodeDepth(more))
    case Quotes(_, _, more) => CodeDepth(more)
    case Line(_, more) => CodeDepth(more)
    case Block(_, more) => CodeDepth(more)
    case Nested(template, more) => Larger(1 + TemplateDepth(template), CodeDepth(more))
  }

  function Larger(a: nat, b: nat): (c: nat)
    ensures c >= a && c >= b
  {
    if a < b then b else a
  }

  /** The inside of quotes: an escape takes the byte after it along, and there is no line break. */
  predicate QuotedBody(body: string, quote: char) {
    body == []
    || (body[0] == '\\' && |body| >= 2 && body[1] != '\n' && QuotedBody(body[2..], quote))
    || (body[0] != '\\' && body[0] != quote && body[0] != '\n' && QuotedBody(body[1..], quote))
  }

  /** No comment ends within. */
  predicate CommentBody(text: string) {
    forall k :: 0 <= k < |text| - 1 ==> !Pair(text, k, '*', '/')
  }

  predicate IsTemplate(t: Literal) {
    match t
    case Closed => true
    case Char(c, rest) => c != '\\' && c != '`' && (c == '$' ==> TemplateText(rest)[0] != '{') && IsTemplate(rest)
    case Escape(_, rest) => IsTemplate(rest)
    case Hole(code, rest) => IsCode(code) && IsTemplate(rest)
  }

  predicate IsQuote(c: char) {
    c == '"' || c == '\''
  }

  predicate IsCode(s: Code) {
    match s
    case Done => true
    case Byte(c, more) =>
      && c != '{' && c != '}' && c != '`' && !IsQuote(c) && (c == '/' ==> CodeText(more)[0] != '/' && CodeText(more)[0] != '*')
      && IsCode(more)
    case Braces(inner, more) => IsCode(inner) && IsCode(more)
    case Quotes(quote, body, more) => IsQuote(quote) && QuotedBody(body, quote) && IsCode(more)
    case Line(comment, more) => '\n' !in comment && IsCode(more)
    case Block(comment, more) => CommentBody(comment) && IsCode(more)
    case Nested(template, more) => IsTemplate(template) && IsCode(more)
  }

  // ----- texts in a source -----

  /** The source reads this text at i. */
  predicate Reads(src: string, i: nat, text: string) {
    i + |text| <= |src| && src[i..i + |text|] == text
  }

  lemma ReadsBoth(src: string, i: nat, a: string, b: string)
    ensures Reads(src, i, a + b) <==> Reads(src, i, a) && Reads(src, i + |a|, b)
  {
    if Reads(src, i, a + b) {
      assert src[i..i + |a|] == (a + b)[..|a|] == a;
      assert src[i + |a|..i + |a| + |b|] == (a + b)[|a|..] == b;
    }
  }

  lemma ReadsAt(src: string, i: nat, text: string, k: nat)
    requires Reads(src, i, text) && k < |text|
    ensures src[i + k] == text[k]
  {
    assert src[i..i + |text|][k] == text[k];
  }

  lemma ReadsRest(src: string, i: nat, text: string, k: nat)
    requires Reads(src, i, text) && k <= |text|
    ensures Reads(src, i, text[..k]) && Reads(src, i + k, text[k..])
  {
    assert text == text[..k] + text[k..];
    ReadsBoth(src, i, text[..k], text[k..]);
  }

  // ----- scans -----

  lemma {:induction false} QuotedRead(src: string, i: nat, body: string, quote: char)
    requires Reads(src, i, body + [quote]) && QuotedBody(body, quote) && quote != '\\' && quote != '\n'
    ensures StringStop(src, i, quote) == i + |body| && QuotedStop(src, i, quote) == i + |body|
    decreases |body|
  {
    ReadsAt(src, i, body + [quote], 0);
    if body != [] {
      var n := if body[0] == '\\' then 2 else 1;
      ReadsRest(src, i, body + [quote], n);
      assert (body + [quote])[n..] == body[n..] + [quote];
      ReadsAt(src, i, body + [quote], n - 1);
      QuotedRead(src, i + n, body[n..], quote);
    }
  }

  lemma {:induction false} LineRead(src: string, i: nat, text: string)
    requires Reads(src, i, text) && '\n' !in text && (i + |text| == |src| || src[i + |text|] == '\n')
    ensures LineEnd(src, i) == i + |text|
    decreases |text|
  {
    if text != [] {
      ReadsAt(src, i, text, 0);
      ReadsRest(src, i, text, 1);
      LineRead(src, i + 1, text[1..]);
    }
  }

  lemma {:induction false} CommentRead(src: string, i: nat, text: string)
    requires Reads(src, i, text + "*/") && CommentBody(text)
    ensures CommentEnd(src, i) == i + |text|
    decreases |text|
  {
    ReadsAt(src, i, text + "*/", 0);
    ReadsAt(src, i, text + "*/", 1);
    if text != [] {
      assert !Pair(src, i, '*', '/') by {
        if |text| > 1 {
          assert !Pair(text, 0, '*', '/');
        }
      }
      ReadsRest(src, i, text + "*/", 1);
      assert (text + "*/")[1..] == text[1..] + "*/";
      assert CommentBody(text[1..]) by {
        forall k | 0 <= k < |text[1..]| - 1
          ensures !Pair(text[1..], k, '*', '/')
        {
          assert !Pair(text, k + 1, '*', '/');
        }
      }
      CommentRead(src, i + 1, text[1..]);
    }
  }

  // ----- templates -----

  lemma HoleRead(src: string, i: nat, depth: nat, limit: nat)
    requires Reads(src, i, "${") && depth + 1 <= limit
    ensures var s := SubstitutionRest(src, i + 2, 1, depth + 1, limit);
            TemplateRest(src, i, depth, limit) == if s.cut then s else TemplateRest(src, s.next, depth, limit)
  {
    ReadsAt(src, i, "${", 0);
    ReadsAt(src, i, "${", 1);
  }

  lemma CharRead(src: string, i: nat, depth: nat, limit: nat)
    requires i < |src| && src[i] != '`' && src[i] != '\\' && !Pair(src, i, '$', '{')
    ensures TemplateRest(src, i, depth, limit) == TemplateRest(src, i + 1, depth, limit)
  {}

  /** The rest of a template stands at i and does not nest too deep. */
  predicate TemplateHere(src: string, i: nat, t: Literal, depth: nat, limit: nat) {
    Reads(src, i, TemplateText(t)) && IsTemplate(t) && depth + TemplateDepth(t) <= limit
  }

  /** The rest of a substitution stands at i and does not nest too deep. */
  predicate CodeHere(src: string, i: nat, s: Code, depth: nat, limit: nat) {
    Reads(src, i, CodeText(s)) && IsCode(s) && depth + CodeDepth(s) <= limit
  }

  /** A template literal is read to its closing backtick. */
  lemma {:induction false} TemplateRead(src: string, i: nat, t: Literal, depth: nat, limit: nat)
    requires TemplateHere(src, i, t, depth, limit)
    ensures TemplateRest(src, i, depth, limit) == Skipped(i + |TemplateText(t)|, false)
    decreases t, 1
  {
    hide Reads, SubstitutionRest;
    ReadsInside(src, i, TemplateText(t));
    ReadsAt(src, i, TemplateText(t), 0);
    match t
    case Closed =>
    case Char(_, _) =>
      TemplateCharRead(src, i, t, depth, limit);
    case Escape(c, rest) =>
      ReadsBoth(src, i, ['\\', c], TemplateText(rest));
      TemplateRead(src, i + 2, rest, depth, limit);
    case Hole(_, _) =>
      TemplateHoleRead(src, i, t, depth, limit);
  }

  lemma {:induction false} TemplateCharRead(src: string, i: nat, t: Literal, depth: nat, limit: nat)
    requires t.Char? && TemplateHere(src, i, t, depth, limit)
    ensures TemplateRest(src, i, depth, limit) == Skipped(i + |TemplateText(t)|, false)
    decreases t, 0
  {
    hide Reads, TemplateRest;
    ReadsInside(src, i, TemplateText(t));
    ReadsAt(src, i, TemplateText(t), 0);
    ReadsBoth(src, i, [t.c], TemplateText(t.rest));
    ReadsInside(src, i + 1, TemplateText(t.rest));
    ReadsAt(src, i + 1, TemplateText(t.rest), 0);
    CharRead(src, i, depth, limit);
    TemplateRead(src, i + 1, t.rest, depth, limit);
  }

  lemma {:induction false} TemplateHoleRead(src: string, i: nat, t: Literal, depth: nat, limit: nat)
    requires t.Hole? && TemplateHere(src, i, t, depth, limit)
    ensures TemplateRest(src, i, depth, limit) == Skipped(i + |TemplateText(t)|, false)
    decreases t, 0
  {
    hide Reads, SubstitutionRest, TemplateRest;
    ReadsBoth(src, i, "${" + CodeText(t.code), TemplateText(t.rest));
    ReadsBoth(src, i, "${", CodeText(t.code));
    HoleRead(src, i, depth, limit);
    CodeRead(src, i + 2, t.code, 1, depth + 1, limit);
    TemplateRead(src, i + 2 + |CodeText(t.code)|, t.rest, depth, limit);
  }

  lemma ReadsInside(src: string, i: nat, text: string)
    requires Reads(src, i, text)
    ensures i + |text| <= |src|
  {}

  lemma ByteRead(src: string, i: nat, braces: nat, depth: nat, limit: nat)
    requires i < |src| && braces > 0 && src[i] !in "{}`" && !IsQuote(src[i]) && !Pair(src, i, '/', '/') && !Pair(src, i, '/', '*')
    ensures SubstitutionRest(src, i, braces, depth, limit) == SubstitutionRest(src, i + 1, braces, depth, limit)
  {
    assert "{}`"[0] == '{' && "{}`"[1] == '}' && "{}`"[2] == '`';
  }

  lemma TextRead(src: string, i: nat, quote: char, body: string, braces: nat, depth: nat, limit: nat)
    requires Reads(src, i, [quote] + body + [quote]) && IsQuote(quote) && QuotedBody(body, quote) && braces > 0
    ensures SubstitutionRest(src, i, braces, depth, limit) == SubstitutionRest(src, i + |body| + 2, braces, depth, limit)
  {
    hide Reads, QuotedBody, SubstitutionRest, QuotedStop;
    assert [quote] + body + [quote] == [quote] + (body + [quote]);
    ReadsBoth(src, i, [quote], body + [quote]);
    ReadsInside(src, i, [quote] + body + [quote]);
    ReadsAt(src, i, [quote], 0);
    QuotedRead(src, i + 1, body, quote);
    QuoteSkips(src, i, braces, depth, limit);
  }

  lemma QuoteSkips(src: string, i: nat, braces: nat, depth: nat, limit: nat)
    requires i < |src| && IsQuote(src[i]) && braces > 0
    ensures SubstitutionRest(src, i, braces, depth, limit) == SubstitutionRest(src, QuotedStop(src, i + 1, src[i]) + 1, braces, depth, limit)
  {
    hide QuotedStop, LineEnd, CommentEnd, Template;
  }

  lemma LineCommentRead(src: string, i: nat, comment: string, braces: nat, depth: nat, limit: nat)
    requires Reads(src, i, "//" + comment + "\n") && '\n' !in comment && braces > 0
    ensures SubstitutionRest(src, i, braces, depth, limit) == SubstitutionRest(src, i + 3 + |comment|, braces, depth, limit)
  {
    hide QuotedStop, CommentEnd, Template, Reads, SubstitutionRest;
    LineCommentHere(src, i, comment);
    SlashesSkip(src, i, braces, depth, limit);
    ByteRead(src, i + 2 + |comment|, braces, depth, limit);
  }

  lemma LineCommentHere(src: string, i: nat, comment: string)
    requires Reads(src, i, "//" + comment + "\n") && '\n' !in comment
    ensures Pair(src, i, '/', '/') && LineEnd(src, i + 2) == i + 2 + |comment| < |src| && src[i + 2 + |comment|] == '\n'
  {
    hide Reads;
    ReadsInside(src, i, "//" + comment + "\n");
    ReadsBoth(src, i, "//" + comment, "\n");
    ReadsBoth(src, i, "//", comment);
    ReadsAt(src, i, "//", 0);
    ReadsAt(src, i, "//", 1);
    ReadsAt(src, i + 2 + |comment|, "\n", 0);
    LineRead(src, i + 2, comment);
  }

  lemma SlashesSkip(src: string, i: nat, braces: nat, depth: nat, limit: nat)
    requires Pair(src, i, '/', '/') && braces > 0
    ensures SubstitutionRest(src, i, braces, depth, limit) == SubstitutionRest(src, LineEnd(src, i + 2), braces, depth, limit)
  {
    hide QuotedStop, CommentEnd, Template, LineEnd;
  }

  lemma BlockCommentRead(src: string, i: nat, comment: string, braces: nat, depth: nat, limit: nat)
    requires Reads(src, i, "/*" + comment + "*/") && CommentBody(comment) && braces > 0
    ensures SubstitutionRest(src, i, braces, depth, limit) == SubstitutionRest(src, i + 4 + |comment|, braces, depth, limit)
  {
    hide QuotedStop, LineEnd, Template;
    assert "/*" + comment + "*/" == "/*" + (comment + "*/");
    ReadsBoth(src, i, "/*", comment + "*/");
    ReadsAt(src, i, "/*", 0);
    ReadsAt(src, i, "/*", 1);
    CommentRead(src, i + 2, comment);
  }

  lemma NestedRead(src: string, i: nat, braces: nat, depth: nat, limit: nat)
    requires i < |src| && src[i] == '`' && braces > 0 && depth + 1 <= limit
    ensures var t := TemplateRest(src, i + 1, depth + 1, limit);
            SubstitutionRest(src, i, braces, depth, limit) == if t.cut then t else SubstitutionRest(src, t.next, braces, depth, limit)
  {}

  lemma BraceRead(src: string, i: nat, braces: nat, depth: nat, limit: nat)
    requires i < |src| && braces > 0
    ensures src[i] == '{' ==> SubstitutionRest(src, i, braces, depth, limit) == SubstitutionRest(src, i + 1, braces + 1, depth, limit)
    ensures src[i] == '}' ==>
              SubstitutionRest(src, i, braces, depth, limit)
              == if braces == 1 then Skipped(i + 1, false) else SubstitutionRest(src, i + 1, braces - 1, depth, limit)
  {}

  /** The braces that are open are one less after what stands here. */
  ghost predicate ClosesBrace(src: string, i: nat, s: Code, braces: nat, depth: nat, limit: nat)
    requires braces > 0
  {
    var end := i + |CodeText(s)|;
    SubstitutionRest(src, i, braces, depth, limit)
    == if braces == 1 then Skipped(end, false) else SubstitutionRest(src, end, braces - 1, depth, limit)
  }

  /** A substitution is read to the brace that closes it; braces within it are counted. */
  lemma {:induction false} CodeRead(src: string, i: nat, s: Code, braces: nat, depth: nat, limit: nat)
    requires CodeHere(src, i, s, depth, limit) && braces > 0
    ensures ClosesBrace(src, i, s, braces, depth, limit)
    decreases s, 1
  {
    match s
    case Done =>
      ReadsAt(src, i, CodeText(s), 0);
      BraceRead(src, i, braces, depth, limit);
    case Byte(_, _) => CodeByteRead(src, i, s, braces, depth, limit);
    case Braces(_, _) => CodeBracesRead(src, i, s, braces, depth, limit);
    case Nested(_, _) => CodeNestedRead(src, i, s, braces, depth, limit);
    case _ => CodeTextRead(src, i, s, braces, depth, limit);
  }

  lemma {:induction false} CodeByteRead(src: string, i: nat, s: Code, braces: nat, depth: nat, limit: nat)
    requires s.Byte? && CodeHere(src, i, s, depth, limit) && braces > 0
    ensures ClosesBrace(src, i, s, braces, depth, limit)
    decreases s, 0
  {
    hide Reads, SubstitutionRest;
    ReadsAt(src, i, CodeText(s), 0);
    ReadsBoth(src, i, [s.c], CodeText(s.more));
    ReadsInside(src, i + 1, CodeText(s.more));
    ReadsAt(src, i + 1, CodeText(s.more), 0);
    ByteRead(src, i, braces, depth, limit);
    CodeRead(src, i + 1, s.more, braces, depth, limit);
  }

  lemma {:induction false} CodeBracesRead(src: string, i: nat, s: Code, braces: nat, depth: nat, limit: nat)
    requires s.Braces? && CodeHere(src, i, s, depth, limit) && braces > 0
    ensures ClosesBrace(src, i, s, braces, depth, limit)
    decreases s, 0
  {
    hide SubstitutionRest, CodeHere, CodeText;
    BracesHere(src, i, s, depth, limit);
    BraceRead(src, i, braces, depth, limit);
    CodeRead(src, i + 1, s.inner, braces + 1, depth, limit);
    CodeRead(src, i + 1 + |CodeText(s.inner)|, s.more, braces, depth, limit);
  }

  lemma BracesHere(src: string, i: nat, s: Code, depth: nat, limit: nat)
    requires s.Braces? && CodeHere(src, i, s, depth, limit)
    ensures i < |src| && src[i] == '{' && CodeHere(src, i + 1, s.inner, depth, limit)
    ensures var j := i + 1 + |CodeText(s.inner)|; CodeHere(src, j, s.more, depth, limit) && i + |CodeText(s)| == j + |CodeText(s.more)|
  {
    hide Reads;
    ReadsInside(src, i, CodeText(s));
    ReadsAt(src, i, CodeText(s), 0);
    ReadsBoth(src, i, "{" + CodeText(s.inner), CodeText(s.more));
    ReadsBoth(src, i, "{", CodeText(s.inner));
  }

  lemma {:induction false} CodeNestedRead(src: string, i: nat, s: Code, braces: nat, depth: nat, limit: nat)
    requires s.Nested? && CodeHere(src, i, s, depth, limit) && braces > 0
    ensures ClosesBrace(src, i, s, braces, depth, limit)
    decreases s, 0
  {
    hide SubstitutionRest, TemplateRest, CodeHere, TemplateHere;
    NestedHere(src, i, s, depth, limit);
    NestedRead(src, i, braces, depth, limit);
    TemplateRead(src, i + 1, s.template, depth + 1, limit);
    CodeRead(src, i + 1 + |TemplateText(s.template)|, s.more, braces, depth, limit);
  }

  lemma NestedHere(src: string, i: nat, s: Code, depth: nat, limit: nat)
    requires s.Nested? && CodeHere(src, i, s, depth, limit)
    ensures i < |src| && src[i] == '`' && depth + 1 <= limit && TemplateHere(src, i + 1, s.template, depth + 1, limit)
    ensures var j := i + 1 + |TemplateText(s.template)|; CodeHere(src, j, s.more, depth, limit) && i + |CodeText(s)| == j + |CodeText(s.more)|
  {
    hide Reads;
    ReadsInside(src, i, CodeText(s));
    ReadsAt(src, i, CodeText(s), 0);
    ReadsBoth(src, i, "`" + TemplateText(s.template), CodeText(s.more));
    ReadsBoth(src, i, "`", TemplateText(s.template));
  }

  /** Quoted text and comments within code are skipped whole. */
  lemma {:induction false} CodeTextRead(src: string, i: nat, s: Code, braces: nat, depth: nat, limit: nat)
    requires (s.Quotes? || s.Line? || s.Block?) && CodeHere(src, i, s, depth, limit) && braces > 0
    ensures ClosesBrace(src, i, s, braces, depth, limit)
    decreases s, 0
  {
    hide SubstitutionRest, Reads, CodeText, CodeHere;
    SkippedHere(src, i, s, braces, depth, limit);
    CodeRead(src, i + SkippedLength(s), s.more, braces, depth, limit);
  }

  function SkippedLength(s: Code): nat {
    match s
    case Quotes(_, body, _) => |body| + 2
    case Line(comment, _) => |comment| + 3
    case Block(comment, _) => |comment| + 4
    case _ => 0
  }

  lemma SkippedHere(src: string, i: nat, s: Code, braces: nat, depth: nat, limit: nat)
    requires (s.Quotes? || s.Line? || s.Block?) && CodeHere(src, i, s, depth, limit) && braces > 0
    ensures CodeHere(src, i + SkippedLength(s), s.more, depth, limit) && |CodeText(s)| == SkippedLength(s) + |CodeText(s.more)|
    ensures SubstitutionRest(src, i, braces, depth, limit) == SubstitutionRest(src, i + SkippedLength(s), braces, depth, limit)
  {
    hide Reads, SubstitutionRest, QuotedBody, CommentBody;
    match s
    case Quotes(quote, body, more) =>
      ReadsBoth(src, i, [quote] + body + [quote], CodeText(more));
      TextRead(src, i, quote, body, braces, depth, limit);
    case Line(comment, more) =>
      ReadsBoth(src, i, "//" + comment + "\n", CodeText(more));
      LineCommentRead(src, i, comment, braces, depth, limit);
    case Block(comment, more) =>
      ReadsBoth(src, i, "/*" + comment + "*/", CodeText(more));
      BlockCommentRead(src, i, comment, braces, depth, limit);
    case _ =>
  }
}

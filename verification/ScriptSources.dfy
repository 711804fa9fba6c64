/** Sources are tokenized as written. */
module ScriptSources {
  import opened ScriptParse
  import opened ScriptLex
  import opened ScriptText

  // ----- tokens -----

  datatype Written = Word(text: string) | Number(text: string) | Quoted(quote: char, body: string)
                   | Regex(body: string, flags: string) | Backtick(rest: Literal) | Sign(text: string)

  function LexemeText(l: Written): string {
    match l
    case Word(text) => text
    case Number(text) => text
    case Quoted(quote, body) => [quote] + body + [quote]
    case Regex(body, flags) => "/" + body + "/" + flags
    case Backtick(rest) => "`" + TemplateText(rest)
    case Sign(text) => text
  }

  /** The inside of a regular expression: a slash needs an escape or a class, and there is no line break. */
  predicate RegexBody(body: string, inClass: bool) {
    if body == [] then !inClass
    else if body[0] == '\\' then |body| >= 2 && body[1] != '\n' && RegexBody(body[2..], inClass)
    else body[0] != '\n' && (body[0] == '/' ==> inClass)
         && RegexBody(body[1..], if body[0] == '[' then true else if body[0] == ']' then false else inClass)
  }

  predicate SignStart(c: char) {
    c != '\n' && !Blank(c) && !IsQuote(c) && c != '`' && !IdentStart(c) && !Digit(c)
  }

  predicate IsLexeme(l: Written) {
    match l
    case Word(text) => text != [] && IdentStart(text[0]) && forall k :: 0 <= k < |text| ==> IdentPart(text[k])
    case Number(text) => text != [] && Digit(text[0]) && forall k :: 0 <= k < |text| ==> IdentPart(text[k]) || text[k] == '.'
    case Quoted(quote, body) => IsQuote(quote) && QuotedBody(body, quote)
    case Regex(body, flags) =>
      body != [] && body[0] != '/' && body[0] != '*' && RegexBody(body, false) && forall k :: 0 <= k < |flags| ==> IdentPart(flags[k])
    case Backtick(rest) => IsTemplate(rest)
    case Sign(text) => text == "=>" || text == "..." || text == "?." || (|text| == 1 && SignStart(text[0]))
  }

  /** A slash after it divides: it ends an operand. */
  predicate EndsOperand(l: Written) {
    match l
    case Word(text) => !RegexKeyword(text)
    case Sign(text) => text == ")" || text == "]" || text == "}"
    case _ => true
  }

  // ----- blanks and comments -----

  datatype Space = White(c: char) | Break | Remark(text: string) | Comment(text: string)

  function SpaceText(s: Space): string {
    match s
    case White(c) => [c]
    case Break => "\n"
    case Remark(text) => "//" + text
    case Comment(text) => "/*" + text + "*/"
  }

  function GapText(gap: seq<Space>): string {
    if gap == [] then "" else SpaceText(gap[0]) + GapText(gap[1..])
  }

  predicate IsSpace(s: Space) {
    match s
    case White(c) => Blank(c)
    case Break => true
    case Remark(text) => '\n' !in text
    case Comment(text) => CommentBody(text)
  }

  /** A line comment is ended by its line break, or, when `last`, by the end. */
  predicate SpaceFits(gap: seq<Space>, k: nat, last: bool)
    requires k < |gap|
  {
    IsSpace(gap[k]) && (gap[k].Remark? ==> if k + 1 < |gap| then gap[k + 1].Break? else last)
  }

  /** Blanks and comments. */
  predicate IsGap(gap: seq<Space>, last: bool) {
    forall k :: 0 <= k < |gap| ==> SpaceFits(gap, k, last)
  }

  /** The doc comment of a gap: its last comment that is one, without the closing mark. */
  function DocOf(gap: seq<Space>, before: string): string {
    if gap == [] then before
    else DocOf(gap[1..], if gap[0].Comment? && IsDoc(gap[0].text) then "/*" + gap[0].text else before)
  }

  predicate IsDoc(text: string) {
    text != [] && text[0] == '*' && |text| + 2 <= MAX_DOC_BYTES
  }

  // ----- sources -----

  /** A token with what stands before it. */
  datatype Placed = Placed(gap: seq<Space>, lexeme: Written)

  function TextOf(ps: seq<Placed>): string {
    if ps == [] then "" else TextOf(ps[..|ps| - 1]) + GapText(ps[|ps| - 1].gap) + LexemeText(ps[|ps| - 1].lexeme)
  }

  predicate StartsBlank(gap: seq<Space>) {
    gap != [] && (gap[0].White? || gap[0].Break?)
  }

  /** Blanks separate the tokens, and each slash is where one of its kind may stand. */
  predicate Fits(ps: seq<Placed>, k: nat)
    requires k < |ps|
  {
    var l := ps[k].lexeme;
    && IsGap(ps[k].gap, false) && IsLexeme(l) && (k > 0 ==> StartsBlank(ps[k].gap))
    && (l.Regex? ==> k == 0 || !EndsOperand(ps[k - 1].lexeme))
    && (l.Sign? && l.text == "/" ==> k > 0 && EndsOperand(ps[k - 1].lexeme))
  }

  predicate IsSource(ps: seq<Placed>) {
    forall k :: 0 <= k < |ps| ==> Fits(ps, k)
  }

  /** What follows the last token. */
  predicate IsTail(ps: seq<Placed>, tail: seq<Space>) {
    IsGap(tail, true) && (ps != [] && tail != [] ==> StartsBlank(tail))
  }

  function Source(ps: seq<Placed>, tail: seq<Space>): string {
    TextOf(ps) + GapText(tail)
  }

  // ----- single tokens -----

  /** A token ends at j: a blank or the end follows. */
  predicate Stops(src: string, j: nat) {
    j == |src| || (j < |src| && (Blank(src[j]) || src[j] == '\n'))
  }

  lemma {:induction false} WordRead(src: string, i: nat, text: string)
    requires Reads(src, i, text) && Stops(src, i + |text|) && forall k :: 0 <= k < |text| ==> IdentPart(text[k])
    ensures IdentEnd(src, i) == i + |text|
    decreases |text|
  {
    if text != [] {
      ReadsAt(src, i, text, 0);
      ReadsRest(src, i, text, 1);
      WordRead(src, i + 1, text[1..]);
    }
  }

  lemma {:induction false} NumberRead(src: string, i: nat, text: string)
    requires Reads(src, i, text) && Stops(src, i + |text|) && forall k :: 0 <= k < |text| ==> IdentPart(text[k]) || text[k] == '.'
    ensures NumberEnd(src, i) == i + |text|
    decreases |text|
  {
    if text != [] {
      ReadsAt(src, i, text, 0);
      ReadsRest(src, i, text, 1);
      NumberRead(src, i + 1, text[1..]);
    }
  }

  lemma {:induction false} RegexRead(src: string, i: nat, body: string, inClass: bool)
    requires Reads(src, i, body + "/") && RegexBody(body, inClass)
    ensures RegexStop(src, i, inClass) == i + |body| + 1
    decreases |body|
  {
    ReadsAt(src, i, body + "/", 0);
    if body != [] {
      var n := if body[0] == '\\' then 2 else 1;
      ReadsRest(src, i, body + "/", n);
      assert (body + "/")[n..] == body[n..] + "/";
      RegexRead(src, i + n, body[n..], if n == 2 then inClass else if body[0] == '[' then true else if body[0] == ']' then false else inClass);
    }
  }

  lemma {:induction false} NewlinesNone(s: string)
    requires '\n' !in s
    ensures Newlines(s) == 0
  {
    if s != [] {
      NewlinesNone(s[1..]);
    }
  }

  lemma {:induction false} NewlinesBoth(a: string, b: string)
    ensures Newlines(a + b) == Newlines(a) + Newlines(b)
    decreases |a|
  {
    if a == [] {
      assert a + b == b;
    } else {
      NewlinesBoth(a[1..], b);
      assert (a + b)[1..] == a[1..] + b;
    }
  }

  lemma {:induction false} QuotedIsOneLine(body: string, quote: char)
    requires QuotedBody(body, quote)
    ensures '\n' !in body
    decreases |body|
  {
    if body != [] {
      var n := if body[0] == '\\' then 2 else 1;
      QuotedIsOneLine(body[n..], quote);
      assert body == body[..n] + body[n..];
    }
  }

  lemma {:induction false} RegexIsOneLine(body: string, inClass: bool)
    requires RegexBody(body, inClass)
    ensures '\n' !in body
    decreases |body|
  {
    if body != [] {
      var n := if body[0] == '\\' then 2 else 1;
      RegexIsOneLine(body[n..], if n == 2 then inClass else if body[0] == '[' then true else if body[0] == ']' then false else inClass);
      assert body == body[..n] + body[n..];
    }
  }

  /** A slash after a token starts a regular expression unless the token ends an operand. */
  lemma RegexAfter(l: Written)
    requires IsLexeme(l)
    ensures RegexAllowed(LexemeText(l)) <==> !EndsOperand(l)
  {
    hide QuotedBody, RegexBody;
    if l.Number? {
      NumberIsNoKeyword(l.text);
    }
  }

  lemma NumberIsNoKeyword(text: string)
    requires text != [] && Digit(text[0])
    ensures !RegexKeyword(text)
  {}

  /** What the tokenizer reads of a token: all of it, and the line breaks within. */
  ghost predicate IsRead(src: string, i: nat, prev: string, limit: nat, l: Written) {
    i < |src| && PieceAt(src, i, prev, limit) == Lexeme(i + |LexemeText(l)|, Newlines(LexemeText(l)))
  }

  lemma WordIsRead(src: string, i: nat, prev: string, limit: nat, l: Written)
    requires (l.Word? || l.Number?) && IsLexeme(l) && Reads(src, i, LexemeText(l)) && Stops(src, i + |LexemeText(l)|)
    ensures IsRead(src, i, prev, limit, l)
  {
    hide Template, RegexAllowed, Reads;
    var text := LexemeText(l);
    ReadsInside(src, i, text);
    ReadsAt(src, i, text, 0);
    if l.Word? {
      WordRead(src, i, text);
    } else {
      NumberRead(src, i, text);
    }
    NewlinesNone(text);
  }

  lemma QuotedIsRead(src: string, i: nat, prev: string, limit: nat, l: Written)
    requires l.Quoted? && IsLexeme(l) && Reads(src, i, LexemeText(l))
    ensures IsRead(src, i, prev, limit, l)
  {
    hide Template, RegexAllowed, Reads, QuotedBody;
    var body, quote := l.body, l.quote;
    ReadsInside(src, i, LexemeText(l));
    ReadsAt(src, i, LexemeText(l), 0);
    ReadsAt(src, i, LexemeText(l), |body| + 1);
    assert LexemeText(l) == [quote] + (body + [quote]);
    ReadsBoth(src, i, [quote], body + [quote]);
    QuotedRead(src, i + 1, body, quote);
    QuotedIsOneLine(body, quote);
    NewlinesNone(LexemeText(l));
  }

  lemma RegexIsRead(src: string, i: nat, prev: string, limit: nat, l: Written)
    requires l.Regex? && IsLexeme(l) && Reads(src, i, LexemeText(l)) && Stops(src, i + |LexemeText(l)|) && RegexAllowed(prev)
    ensures IsRead(src, i, prev, limit, l)
  {
    hide Template, RegexAllowed, Reads, RegexBody;
    var body, flags := l.body, l.flags;
    ReadsInside(src, i, LexemeText(l));
    ReadsAt(src, i, LexemeText(l), 0);
    ReadsAt(src, i, LexemeText(l), 1);
    ReadsBoth(src, i, "/" + body + "/", flags);
    assert "/" + body + "/" == "/" + (body + "/");
    ReadsBoth(src, i, "/", body + "/");
    RegexRead(src, i + 1, body, false);
    WordRead(src, i + |body| + 2, flags);
    RegexIsOneLine(body, false);
    FlagsAreOneLine(flags);
    NewlinesNone(LexemeText(l));
  }

  lemma FlagsAreOneLine(flags: string)
    requires forall k :: 0 <= k < |flags| ==> IdentPart(flags[k])
    ensures '\n' !in flags
  {}

  lemma BacktickIsRead(src: string, i: nat, prev: string, limit: nat, l: Written)
    requires l.Backtick? && IsLexeme(l) && Reads(src, i, LexemeText(l)) && 1 + TemplateDepth(l.rest) <= limit
    ensures IsRead(src, i, prev, limit, l)
  {
    hide RegexAllowed, Reads, IsTemplate, TemplateRest;
    var text := LexemeText(l);
    ReadsInside(src, i, text);
    ReadsAt(src, i, text, 0);
    ReadsBoth(src, i, "`", TemplateText(l.rest));
    TemplateRead(src, i + 1, l.rest, 1, limit);
    assert Template(src, i, 1, limit) == Skipped(i + |text|, false);
    assert src[i..i + |text|] == text by {
      ReadsSlice(src, i, text);
    }
  }

  lemma ReadsSlice(src: string, i: nat, text: string)
    requires Reads(src, i, text)
    ensures i + |text| <= |src| && src[i..i + |text|] == text
  {}

  lemma SignIsRead(src: string, i: nat, prev: string, limit: nat, l: Written)
    requires l.Sign? && IsLexeme(l) && Reads(src, i, LexemeText(l)) && Stops(src, i + |LexemeText(l)|) && (l.text == "/" ==> !RegexAllowed(prev))
    ensures IsRead(src, i, prev, limit, l)
  {
    hide Template, RegexAllowed, Reads;
    var text := l.text;
    ReadsInside(src, i, text);
    forall k | 0 <= k < |text|
      ensures src[i + k] == text[k]
    {
      ReadsAt(src, i, text, k);
    }
    assert src[i] == text[0];
    SignsAre(text);
    NewlinesNone(text);
    SignLength(src, i, text);
  }

  lemma SignsAre(text: string)
    requires IsLexeme(Sign(text))
    ensures text != [] && '\n' !in text && SignStart(text[0]) && (text[0] == '/' ==> text == "/")
  {}

  lemma SignLength(src: string, i: nat, text: string)
    requires IsLexeme(Sign(text)) && i + |text| <= |src| && (forall k :: 0 <= k < |text| ==> src[i + k] == text[k]) && Stops(src, i + |text|)
    ensures PunctuationLength(src, i) == |text| && !Pair(src, i, '/', '/') && !Pair(src, i, '/', '*')
  {
    assert src[i + 0] == text[0];
    if |text| > 1 {
      assert src[i + 1] == text[1];
    }
    if |text| > 2 {
      assert src[i + 2] == text[2];
    }
  }

  /** Each token is read as it is written, where a blank or the end follows. */
  lemma LexemeIsRead(src: string, i: nat, prev: string, limit: nat, l: Written)
    requires IsLexeme(l) && Reads(src, i, LexemeText(l)) && Stops(src, i + |LexemeText(l)|)
    requires (l.Regex? ==> RegexAllowed(prev)) && (l.Sign? && l.text == "/" ==> !RegexAllowed(prev))
    requires l.Backtick? ==> 1 + TemplateDepth(l.rest) <= limit
    ensures IsRead(src, i, prev, limit, l)
  {
    hide IsLexeme, LexemeText, Reads, Stops, IsRead, RegexAllowed;
    match l
    case Word(_) => WordIsRead(src, i, prev, limit, l);
    case Number(_) => WordIsRead(src, i, prev, limit, l);
    case Quoted(_, _) => QuotedIsRead(src, i, prev, limit, l);
    case Regex(_, _) => RegexIsRead(src, i, prev, limit, l);
    case Backtick(_) => BacktickIsRead(src, i, prev, limit, l);
    case Sign(_) => SignIsRead(src, i, prev, limit, l);
  }

  // ----- single blanks and comments -----

  function NextDoc(s: Space, before: string): string {
    if s.Comment? && IsDoc(s.text) then "/*" + s.text else before
  }

  /** What the tokenizer reads of a blank or a comment: all of it, its line breaks, and whether it is a doc comment. */
  ghost predicate IsPassed(p: Piece, i: nat, s: Space, before: string) {
    && p.Gap? && p.next == i + |SpaceText(s)| && p.lines == Newlines(SpaceText(s))
    && (if p.doc != "" then p.doc else before) == NextDoc(s, before)
  }

  lemma BlankIsRead(src: string, i: nat, prev: string, limit: nat, s: Space, before: string)
    requires (s.White? || s.Break?) && IsSpace(s) && i < |src| && src[i] == SpaceText(s)[0]
    ensures IsPassed(PieceAt(src, i, prev, limit), i, s, before)
  {
    hide Template, RegexAllowed, StringEnd, LineEnd, CommentEnd;
    if s.White? {
      NewlinesNone([s.c]);
    } else {
      assert "\n" == ['\n'];
      NewlinesNone("\n"[1..]);
    }
  }

  lemma RemarkIsRead(src: string, i: nat, prev: string, limit: nat, s: Space, before: string)
    requires s.Remark? && IsSpace(s) && Reads(src, i, SpaceText(s)) && i + |SpaceText(s)| <= |src|
    requires i + |SpaceText(s)| == |src| || src[i + |SpaceText(s)|] == '\n'
    ensures i < |src| && IsPassed(PieceAt(src, i, prev, limit), i, s, before)
  {
    hide Template, RegexAllowed, StringEnd, CommentEnd, Reads, LineEnd;
    ReadsAt(src, i, SpaceText(s), 0);
    ReadsAt(src, i, SpaceText(s), 1);
    ReadsBoth(src, i, "//", s.text);
    LineRead(src, i + 2, s.text);
    NewlinesNone("//" + s.text);
  }

  lemma BlockIsRead(src: string, i: nat, prev: string, limit: nat, s: Space, before: string)
    requires s.Comment? && IsSpace(s) && Reads(src, i, SpaceText(s))
    ensures i < |src| && IsPassed(PieceAt(src, i, prev, limit), i, s, before)
  {
    hide Template, RegexAllowed, StringEnd, LineEnd, Reads, CommentBody, Newlines;
    ReadsInside(src, i, SpaceText(s));
    CommentIsRead(src, i, s.text);
  }

  /** A blank or a comment is a gap of its length. */
  lemma SpaceIsRead(src: string, i: nat, prev: string, limit: nat, s: Space, before: string)
    requires IsSpace(s) && Reads(src, i, SpaceText(s)) && (s.Remark? ==> i + |SpaceText(s)| == |src| || src[i + |SpaceText(s)|] == '\n')
    ensures i < |src| && |SpaceText(s)| > 0
    ensures var p := PieceAt(src, i, prev, limit);
            && p.Gap? && p.next == i + |SpaceText(s)| && p.lines == Newlines(SpaceText(s))
            && (if p.doc != "" then p.doc else before) == NextDoc(s, before)
  {
    hide Reads, CommentBody, PieceAt;
    ReadsInside(src, i, SpaceText(s));
    ReadsAt(src, i, SpaceText(s), 0);
    if s.Comment? {
      BlockIsRead(src, i, prev, limit, s, before);
    } else if s.Remark? {
      RemarkIsRead(src, i, prev, limit, s, before);
    } else {
      BlankIsRead(src, i, prev, limit, s, before);
    }
  }

  lemma CommentIsRead(src: string, i: nat, text: string)
    requires CommentBody(text) && Reads(src, i, "/*" + text + "*/")
    ensures i + 1 < |src| && Pair(src, i, '/', '*') && CommentEnd(src, i + 2) == i + 2 + |text|
    ensures src[i..i + 2 + |text|] == "/*" + text && Newlines("/*" + text + "*/") == Newlines("/*" + text)
    ensures "/**" <= "/*" + text <==> text != [] && text[0] == '*'
  {
    hide CommentBody;
    assert "/*" + text + "*/" == "/*" + (text + "*/");
    ReadsBoth(src, i, "/*" + text, "*/");
    ReadsBoth(src, i, "/*", text + "*/");
    ReadsAt(src, i, "/*", 0);
    ReadsAt(src, i, "/*", 1);
    CommentRead(src, i + 2, text);
    ReadsSlice(src, i, "/*" + text);
    NewlinesBoth("/*" + text, "*/");
    NewlinesNone("*/");
    DocPrefix(text);
  }

  lemma DocPrefix(text: string)
    ensures "/**" <= "/*" + text <==> text != [] && text[0] == '*'
  {
    if text != [] {
      assert ("/*" + text)[2] == text[0];
      assert "/**"[..2] == "/*";
      if text[0] == '*' {
        assert ("/*" + text)[..3] == "/**";
      }
      if "/**" <= "/*" + text {
        assert "/**"[2] == ("/*" + text)[2];
      }
    }
  }

  // ----- all of a source -----

  /** Blanks and comments leave the tokens as they are; the last doc comment waits for the next token. */
  lemma {:induction false} GapIsRead(src: string, l: Lexer, gap: seq<Space>, last: bool, maxTokens: nat, limit: nat)
    requires Reads(src, l.i, GapText(gap)) && IsGap(gap, last) && (last ==> l.i + |GapText(gap)| == |src|) && |l.spans| < maxTokens
    ensures var after := Lexer(l.i + |GapText(gap)|, l.line + Newlines(GapText(gap)), DocOf(gap, l.pending), l.spans, l.docs);
            LexFrom(src, l, maxTokens, limit) == LexFrom(src, after, maxTokens, limit)
    decreases |gap|
  {
    hide Reads, PieceAt, SpaceText, IsSpace, PrevText, IsGap;
    if gap != [] {
      var first, more := gap[0], gap[1..];
      RestIsGap(gap, last);
      ReadsBoth(src, l.i, SpaceText(first), GapText(more));
      ReadsInside(src, l.i, GapText(gap));
      BreakFollows(src, l.i, gap, last);
      SpaceIsRead(src, l.i, PrevText(src, l.spans), limit, first, l.pending);
      NewlinesBoth(SpaceText(first), GapText(more));
      var next := Apply(l, PieceAt(src, l.i, PrevText(src, l.spans), limit));
      assert next == Lexer(l.i + |SpaceText(first)|, l.line + Newlines(SpaceText(first)), NextDoc(first, l.pending), l.spans, l.docs);
      GapIsRead(src, next, more, last, maxTokens, limit);
    }
  }

  lemma {:induction false} BreakFollows(src: string, i: nat, gap: seq<Space>, last: bool)
    requires gap != [] && Reads(src, i, GapText(gap)) && IsGap(gap, last) && (last ==> i + |GapText(gap)| == |src|)
    ensures gap[0].Remark? ==> i + |SpaceText(gap[0])| == |src| || (i + |SpaceText(gap[0])| < |src| && src[i + |SpaceText(gap[0])|] == '\n')
  {
    hide Reads, GapText, SpaceText, IsSpace;
    var j := i + |SpaceText(gap[0])|;
    assert SpaceFits(gap, 0, last);
    GapParts(gap);
    if gap[0].Remark? && |gap| > 1 {
      ReadsBoth(src, i, SpaceText(gap[0]), GapText(gap[1..]));
      BreakFirst(gap[1..]);
      ReadsInside(src, j, GapText(gap[1..]));
      ReadsAt(src, j, GapText(gap[1..]), 0);
    }
  }

  lemma GapParts(gap: seq<Space>)
    requires gap != []
    ensures GapText(gap) == SpaceText(gap[0]) + GapText(gap[1..])
    ensures |gap| == 1 ==> GapText(gap[1..]) == ""
  {}

  lemma BreakFirst(gap: seq<Space>)
    requires gap != [] && gap[0].Break?
    ensures GapText(gap) != [] && GapText(gap)[0] == '\n'
  {}

  lemma {:induction false} RestIsGap(gap: seq<Space>, last: bool)
    requires gap != [] && IsGap(gap, last)
    ensures IsSpace(gap[0]) && IsGap(gap[1..], last)
  {
    hide IsSpace;
    assert SpaceFits(gap, 0, last);
    forall k | 0 <= k < |gap[1..]|
      ensures SpaceFits(gap[1..], k, last)
    {
      assert SpaceFits(gap, k + 1, last);
    }
  }

  /** The tokenizer's state after these tokens. */
  function StateAfter(ps: seq<Placed>): Lexer {
    if ps == [] then LEX_START
    else
      var n := |ps| - 1;
      var before := StateAfter(ps[..n]);
      var start := before.i + |GapText(ps[n].gap)|;
      var line := before.line + Newlines(GapText(ps[n].gap));
      var text := LexemeText(ps[n].lexeme);
      var doc := DocOf(ps[n].gap, "");
      Lexer(start + |text|, line + Newlines(text), "", before.spans + [Span(start, start + |text|, line)],
            if doc != "" then before.docs[|before.spans| := doc] else before.docs)
  }

  /** How deep the template literals of a source nest. */
  function Deepest(ps: seq<Placed>): (d: nat)
    ensures forall k :: 0 <= k < |ps| && ps[k].lexeme.Backtick? ==> 1 + TemplateDepth(ps[k].lexeme.rest) <= d
  {
    if ps == [] then 0
    else
      var last := ps[|ps| - 1].lexeme;
      Larger(Deepest(ps[..|ps| - 1]), if last.Backtick? then 1 + TemplateDepth(last.rest) else 0)
  }

  lemma {:induction false} StateIs(ps: seq<Placed>)
    ensures var l := StateAfter(ps); l.i == |TextOf(ps)| && l.line == 1 + Newlines(TextOf(ps)) && l.pending == "" && |l.spans| == |ps|
  {
    hide LexemeText, GapText, Newlines;
    if ps != [] {
      var n := |ps| - 1;
      StateIs(ps[..n]);
      NewlinesBoth(TextOf(ps[..n]) + GapText(ps[n].gap), LexemeText(ps[n].lexeme));
      NewlinesBoth(TextOf(ps[..n]), GapText(ps[n].gap));
    } else {
      NewlinesNone("");
    }
  }

  /** The text of the token before, as the tokenizer looks it up, allows a slash what the token allows it. */
  lemma {:induction false} PrevIs(src: string, ps: seq<Placed>)
    requires Reads(src, 0, TextOf(ps)) && forall k :: 0 <= k < |ps| ==> IsLexeme(ps[k].lexeme)
    ensures var prev := PrevText(src, StateAfter(ps).spans); RegexAllowed(prev) <==> ps == [] || !EndsOperand(ps[|ps| - 1].lexeme)
  {
    hide LexemeText, GapText, EndsOperand, IsLexeme, RegexKeyword;
    if ps != [] {
      var n := |ps| - 1;
      StateIs(ps[..n]);
      StateIs(ps);
      var l := ps[n].lexeme;
      var start := |TextOf(ps[..n])| + |GapText(ps[n].gap)|;
      ReadsBoth(src, 0, TextOf(ps[..n]) + GapText(ps[n].gap), LexemeText(l));
      ReadsSlice(src, start, LexemeText(l));
      RegexAfter(l);
    }
  }

  /** A token after its gap. */
  lemma {:induction false} TokenIsRead(src: string, ps: seq<Placed>, maxTokens: nat, limit: nat)
    requires ps != [] && IsSource(ps) && Reads(src, 0, TextOf(ps)) && Stops(src, |TextOf(ps)|)
    requires |ps| <= maxTokens && Deepest(ps) <= limit
    ensures LexFrom(src, StateAfter(ps[..|ps| - 1]), maxTokens, limit) == LexFrom(src, StateAfter(ps), maxTokens, limit)
  {
    hide LexemeText, GapText, EndsOperand, IsLexeme, RegexAllowed, PieceAt, PrevText, Stops, Reads, IsGap, Newlines, Deepest, StartsBlank, DocOf;
    var n := |ps| - 1;
    var before := StateAfter(ps[..n]);
    var gap, lexeme := ps[n].gap, ps[n].lexeme;
    StateIs(ps[..n]);
    ReadsBoth(src, 0, TextOf(ps[..n]) + GapText(gap), LexemeText(lexeme));
    ReadsBoth(src, 0, TextOf(ps[..n]), GapText(gap));
    LastIsSource(src, ps, limit);
    GapIsRead(src, before, gap, false, maxTokens, limit);
    var at := Lexer(before.i + |GapText(gap)|, before.line + Newlines(GapText(gap)), DocOf(gap, ""), before.spans, before.docs);
    LexemeIsRead(src, at.i, PrevText(src, at.spans), limit, lexeme);
    assert Apply(at, PieceAt(src, at.i, PrevText(src, at.spans), limit)) == StateAfter(ps);
  }

  lemma {:induction false} LastIsSource(src: string, ps: seq<Placed>, limit: nat)
    requires ps != [] && IsSource(ps) && Reads(src, 0, TextOf(ps)) && Deepest(ps) <= limit
    ensures var n := |ps| - 1; var l := ps[n].lexeme; var prev := PrevText(src, StateAfter(ps[..n]).spans);
            && IsLexeme(l) && (l.Regex? ==> RegexAllowed(prev)) && (l.Sign? && l.text == "/" ==> !RegexAllowed(prev))
            && (l.Backtick? ==> 1 + TemplateDepth(l.rest) <= limit) && IsGap(ps[n].gap, false)
  {
    hide LexemeText, GapText, EndsOperand, IsLexeme, RegexAllowed, PrevText, Reads, IsGap, StartsBlank;
    var n := |ps| - 1;
    ReadsBoth(src, 0, TextOf(ps[..n]) + GapText(ps[n].gap), LexemeText(ps[n].lexeme));
    ReadsBoth(src, 0, TextOf(ps[..n]), GapText(ps[n].gap));
    forall k | 0 <= k < n
      ensures IsLexeme(ps[k].lexeme)
    {
      assert Fits(ps, k);
    }
    PrevIs(src, ps[..n]);
    assert Fits(ps, n);
  }

  lemma {:induction false} FirstAreSource(ps: seq<Placed>, m: nat)
    requires IsSource(ps) && m <= |ps|
    ensures IsSource(ps[..m])
  {
    hide IsGap, IsLexeme, StartsBlank, EndsOperand;
    forall k | 0 <= k < m
      ensures Fits(ps[..m], k)
    {
      assert Fits(ps, k);
    }
  }

  /** A blank follows each token but the last. */
  lemma {:induction false} BlankFollows(src: string, ps: seq<Placed>)
    requires |ps| > 1 && IsSource(ps) && Reads(src, 0, TextOf(ps))
    ensures var n := |ps| - 1; Reads(src, 0, TextOf(ps[..n])) && Stops(src, |TextOf(ps[..n])|)
  {
    hide Reads, IsLexeme, EndsOperand, LexemeText, GapText;
    var n := |ps| - 1;
    assert Fits(ps, n);
    var gap := ps[n].gap;
    var at := |TextOf(ps[..n])|;
    ReadsBoth(src, 0, TextOf(ps[..n]) + GapText(gap), LexemeText(ps[n].lexeme));
    ReadsBoth(src, 0, TextOf(ps[..n]), GapText(gap));
    BlankFirst(gap);
    ReadsInside(src, at, GapText(gap));
    ReadsAt(src, at, GapText(gap), 0);
  }

  lemma {:induction false} BlankFirst(gap: seq<Space>)
    requires StartsBlank(gap) && (IsGap(gap, false) || IsGap(gap, true))
    ensures GapText(gap) != [] && (Blank(GapText(gap)[0]) || GapText(gap)[0] == '\n')
  {
    assert SpaceFits(gap, 0, IsGap(gap, true));
  }

  lemma {:induction false} TokensAreRead(src: string, ps: seq<Placed>, maxTokens: nat, limit: nat)
    requires IsSource(ps) && Reads(src, 0, TextOf(ps)) && (ps != [] ==> Stops(src, |TextOf(ps)|))
    requires |ps| <= maxTokens && Deepest(ps) <= limit
    ensures LexFrom(src, LEX_START, maxTokens, limit) == LexFrom(src, StateAfter(ps), maxTokens, limit)
  {
    hide LexFrom, Reads, Stops, LexemeText, GapText, Fits;
    if ps != [] {
      var n := |ps| - 1;
      FirstAreSource(ps, n);
      if n > 0 {
        BlankFollows(src, ps);
      } else {
        ReadsBoth(src, 0, "", "");
        NothingRead(src);
      }
      TokensAreRead(src, ps[..n], maxTokens, limit);
      TokenIsRead(src, ps, maxTokens, limit);
    }
  }

  lemma NothingRead(src: string)
    ensures Reads(src, 0, "")
  {}

  /** The tokenizer reads a source to its end. */
  lemma {:induction false} SourceIsRead(ps: seq<Placed>, tail: seq<Space>, maxTokens: nat, limit: nat)
    requires IsSource(ps) && IsTail(ps, tail) && |ps| < maxTokens && Deepest(ps) <= limit
    ensures Lex(Source(ps, tail), maxTokens, limit) == Lexed(StateAfter(ps).spans, StateAfter(ps).docs, false)
  {
    hide Reads, Fits, GapText, TextOf, StateAfter, PieceAt, IsGap, StartsBlank, Deepest;
    var src := Source(ps, tail);
    WholeReads(ps, tail);
    TailFollows(ps, tail);
    TokensAreRead(src, ps, maxTokens, limit);
    StateIs(ps);
    GapIsRead(src, StateAfter(ps), tail, true, maxTokens, limit);
  }

  lemma WholeReads(ps: seq<Placed>, tail: seq<Space>)
    ensures var src := Source(ps, tail); Reads(src, 0, TextOf(ps)) && Reads(src, |TextOf(ps)|, GapText(tail)) && |src| == |TextOf(ps)| + |GapText(tail)|
  {
    hide TextOf, GapText;
    var src := Source(ps, tail);
    assert src[0..|src|] == src;
    ReadsBoth(src, 0, TextOf(ps), GapText(tail));
  }

  lemma {:induction false} TailFollows(ps: seq<Placed>, tail: seq<Space>)
    requires IsTail(ps, tail)
    ensures ps != [] ==> Stops(Source(ps, tail), |TextOf(ps)|)
  {
    hide TextOf, GapText;
    if ps != [] && tail != [] {
      BlankFirst(tail);
      assert Source(ps, tail)[|TextOf(ps)|] == GapText(tail)[0];
    } else {
      NoGap();
    }
  }

  lemma NoGap()
    ensures GapText([]) == ""
  {}

  /** The line of token k: one more than the line breaks before it. */
  function LineOf(ps: seq<Placed>, k: nat): nat
    requires k < |ps|
  {
    1 + Newlines(TextOf(ps[..k]) + GapText(ps[k].gap))
  }

  /** Where token k starts. */
  function StartOf(ps: seq<Placed>, k: nat): nat
    requires k < |ps|
  {
    |TextOf(ps[..k])| + |GapText(ps[k].gap)|
  }

  lemma {:induction false} SpanIs(ps: seq<Placed>, k: nat)
    requires k < |ps|
    ensures |StateAfter(ps).spans| == |ps|
    ensures StateAfter(ps).spans[k] == Span(StartOf(ps, k), StartOf(ps, k) + |LexemeText(ps[k].lexeme)|, LineOf(ps, k))
  {
    hide TextOf, GapText, LexemeText, Newlines, DocOf;
    var n := |ps| - 1;
    StateIs(ps);
    StateIs(ps[..n]);
    if k < n {
      SpanIs(ps[..n], k);
      assert ps[..n][..k] == ps[..k];
    } else {
      NewlinesBoth(TextOf(ps[..n]), GapText(ps[n].gap));
    }
  }

  lemma {:induction false} DocsAre(ps: seq<Placed>, k: nat)
    ensures var docs := StateAfter(ps).docs; (k in docs <==> k < |ps| && DocOf(ps[k].gap, "") != "") && (k in docs ==> docs[k] == DocOf(ps[k].gap, ""))
  {
    hide TextOf, GapText, LexemeText, Newlines, DocOf;
    if ps != [] {
      var n := |ps| - 1;
      StateIs(ps[..n]);
      DocsAre(ps[..n], k);
    }
  }

  lemma {:induction false} SpanReads(ps: seq<Placed>, tail: seq<Space>, k: nat)
    requires k < |ps|
    ensures Reads(Source(ps, tail), StartOf(ps, k), LexemeText(ps[k].lexeme))
  {
    hide GapText, LexemeText, Reads;
    WholeReads(ps, tail);
    PartReads(Source(ps, tail), ps, k);
  }

  lemma {:induction false} PartReads(src: string, ps: seq<Placed>, k: nat)
    requires k < |ps| && Reads(src, 0, TextOf(ps))
    ensures Reads(src, StartOf(ps, k), LexemeText(ps[k].lexeme))
  {
    hide GapText, LexemeText, Reads;
    var n := |ps| - 1;
    ReadsBoth(src, 0, TextOf(ps[..n]) + GapText(ps[n].gap), LexemeText(ps[n].lexeme));
    ReadsBoth(src, 0, TextOf(ps[..n]), GapText(ps[n].gap));
    if k < n {
      PartReads(src, ps[..n], k);
      assert ps[..n][..k] == ps[..k];
    }
  }

  /**
   Tokenizing what is written gives it back: a source of tokens with blanks and comments between
   them, when no bound cuts it, has exactly those tokens, each on its line, and the doc comments
   that stand before them.
   */
  lemma {:induction false} TokensAsWritten(ps: seq<Placed>, tail: seq<Space>, maxTokens: nat, limit: nat)
    requires IsSource(ps) && IsTail(ps, tail) && !Lex(Source(ps, tail), maxTokens, limit).cut
    ensures var r := Lex(Source(ps, tail), maxTokens, limit); var toks := Tokens(Source(ps, tail), r.spans);
            && |toks| == |ps|
            && (forall k :: 0 <= k < |ps| ==> toks[k] == Token(LexemeText(ps[k].lexeme), LineOf(ps, k)))
            && (forall k: nat :: k in r.docs <==> k < |ps| && DocOf(ps[k].gap, "") != "")
            && (forall k: nat :: k in r.docs ==> r.docs[k] == DocOf(ps[k].gap, ""))
  {
    hide LexFrom, TextOf, GapText, LexemeText, DocOf, StateAfter, IsTail, Source, Fits, Newlines, Reads, LineOf, StartOf;
    var src := Source(ps, tail);
    var more := Larger(maxTokens, |ps| + 1);
    var deeper := Larger(limit, Deepest(ps));
    LexFromLarger(src, LEX_START, maxTokens, limit, more, deeper);
    SourceIsRead(ps, tail, more, deeper);
    StateIs(ps);
    var toks := Tokens(src, StateAfter(ps).spans);
    forall k | 0 <= k < |ps|
      ensures toks[k] == Token(LexemeText(ps[k].lexeme), LineOf(ps, k))
    {
      SpanIs(ps, k);
      SpanReads(ps, tail, k);
      ReadsSlice(src, StartOf(ps, k), LexemeText(ps[k].lexeme));
    }
    forall k: nat
      ensures var docs := StateAfter(ps).docs; (k in docs <==> k < |ps| && DocOf(ps[k].gap, "") != "") && (k in docs ==> docs[k] == DocOf(ps[k].gap, ""))
    {
      DocsAre(ps, k);
    }
  }

  // ----- between the tokens of any source -----

  /** From i to j there are blanks and comments only; a line comment is ended by its line, or, when `last`, by the end. */
  ghost predicate IsBlank(src: string, i: nat, j: nat, last: bool) {
    i <= j <= |src| && exists gap :: IsGap(gap, last) && GapText(gap) == src[i..j]
  }

  /** As far as j: when the last of it is a line comment, its line ends there. */
  ghost predicate BlankUpTo(src: string, i: nat, j: nat) {
    i <= j <= |src| && exists gap: seq<Space> :: IsGap(gap, true) && GapText(gap) == src[i..j] && EndsAt(src, gap, j)
  }

  predicate EndsAt(src: string, gap: seq<Space>, j: nat) {
    gap != [] && gap[|gap| - 1].Remark? ==> j >= |src| || src[j] == '\n'
  }

  /** A comment that nothing closes starts at j. */
  ghost predicate OpenComment(src: string, j: nat) {
    Pair(src, j, '/', '*') && forall m :: j + 2 <= m < |src| ==> !Pair(src, m, '*', '/')
  }

  /** Where the token before token k ends. */
  function EndBefore(spans: seq<Span>, k: nat): nat
    requires k <= |spans|
  {
    if k == 0 then 0 else spans[k - 1].end
  }

  /** Before each token there are blanks and comments only. */
  ghost predicate BlankBefore(src: string, spans: seq<Span>) {
    forall k :: 0 <= k < |spans| ==> IsBlank(src, EndBefore(spans, k), spans[k].start, false)
  }

  lemma {:induction false} NoLineBreak(src: string, i: nat)
    requires i <= |src|
    ensures var r := LineEnd(src, i); '\n' !in src[i..r] && (r == |src| || src[r] == '\n')
    decreases |src| - i
  {
    if i < |src| && src[i] != '\n' {
      NoLineBreak(src, i + 1);
      assert src[i..LineEnd(src, i)] == [src[i]] + src[i + 1..LineEnd(src, i)];
    }
  }

  lemma {:induction false} NoCommentEnd(src: string, i: nat)
    requires i <= |src|
    ensures forall m :: i <= m < CommentEnd(src, i) ==> !Pair(src, m, '*', '/')
    decreases |src| - i
  {
    if i < |src| && !Pair(src, i, '*', '/') {
      NoCommentEnd(src, i + 1);
    }
  }

  /** What the tokenizer passes is a line break, a blank, or a comment. */
  lemma GapKinds(src: string, i: nat, prev: string, limit: nat)
    requires i < |src| && PieceAt(src, i, prev, limit).Gap?
    ensures src[i] == '\n' || Blank(src[i]) || Pair(src, i, '/', '/') || Pair(src, i, '/', '*')
    ensures PieceAt(src, i, prev, limit).next
         == if src[i] == '\n' || Blank(src[i]) then i + 1 else if Pair(src, i, '/', '/') then LineEnd(src, i + 2) else CommentEnd(src, i + 2) + 2
  {
    hide Template, RegexAllowed, StringEnd, RegexStop, IdentEnd, NumberEnd, LineEnd, CommentEnd;
  }

  lemma {:induction false} RemarkIs(src: string, i: nat) returns (s: Space)
    requires Pair(src, i, '/', '/')
    ensures var next := LineEnd(src, i + 2);
            next <= |src| && s.Remark? && IsSpace(s) && SpaceText(s) == src[i..next] && (next == |src| || src[next] == '\n')
  {
    NoLineBreak(src, i + 2);
    s := Remark(src[i + 2..LineEnd(src, i + 2)]);
    assert src[i..LineEnd(src, i + 2)] == "//" + s.text;
  }

  lemma {:induction false} CommentIs(src: string, i: nat) returns (s: Space)
    requires Pair(src, i, '/', '*')
    ensures var end := CommentEnd(src, i + 2);
            if end < |src| then s.Comment? && end + 2 <= |src| && IsSpace(s) && SpaceText(s) == src[i..end + 2] else OpenComment(src, i)
  {
    var end := CommentEnd(src, i + 2);
    NoCommentEnd(src, i + 2);
    s := Comment(src[i + 2..end]);
    if end < |src| {
      assert src[i..end + 2] == "/*" + s.text + "*/";
      ClosedHere(src, i + 2, end);
    }
  }

  /** What the tokenizer passes is a blank or a comment, or a comment that nothing closes. */
  lemma {:induction false} GapIsSpace(src: string, i: nat, prev: string, limit: nat) returns (s: Space)
    requires i < |src| && PieceAt(src, i, prev, limit).Gap?
    ensures var next := PieceAt(src, i, prev, limit).next;
            if next <= |src| then
              IsSpace(s) && SpaceText(s) == src[i..next] && (s.Remark? ==> next == |src| || src[next] == '\n') && (src[i] == '\n' ==> s.Break?)
            else OpenComment(src, i)
  {
    hide PieceAt, LineEnd, CommentEnd, CommentBody, OpenComment;
    GapKinds(src, i, prev, limit);
    if src[i] == '\n' {
      s := Break;
      assert src[i..i + 1] == [src[i]];
    } else if Blank(src[i]) {
      s := White(src[i]);
      assert src[i..i + 1] == [src[i]];
    } else if Pair(src, i, '/', '/') {
      s := RemarkIs(src, i);
    } else {
      s := CommentIs(src, i);
    }
  }

  lemma {:induction false} ClosedHere(src: string, i: nat, end: nat)
    requires i <= end <= |src| && forall m :: i <= m < end ==> !Pair(src, m, '*', '/')
    ensures CommentBody(src[i..end])
  {
    forall k | 0 <= k < |src[i..end]| - 1
      ensures !Pair(src[i..end], k, '*', '/')
    {
      assert !Pair(src, i + k, '*', '/');
    }
  }

  lemma {:induction false} GapTextNext(gap: seq<Space>, s: Space)
    ensures GapText(gap + [s]) == GapText(gap) + SpaceText(s)
    decreases |gap|
  {
    hide SpaceText;
    if gap == [] {
      assert gap + [s] == [s] && [s][1..] == [];
    } else {
      GapTextNext(gap[1..], s);
      assert (gap + [s])[1..] == gap[1..] + [s] && (gap + [s])[0] == gap[0];
    }
  }

  /** One more blank or comment. */
  lemma {:induction false} BlankNext(src: string, i: nat, j: nat, next: nat, s: Space)
    requires BlankUpTo(src, i, j) && j < next <= |src|
    requires IsSpace(s) && SpaceText(s) == src[j..next] && (s.Remark? ==> next == |src| || src[next] == '\n') && (src[j] == '\n' ==> s.Break?)
    ensures BlankUpTo(src, i, next)
  {
    hide IsSpace, SpaceText;
    var gap: seq<Space> :| IsGap(gap, true) && GapText(gap) == src[i..j] && EndsAt(src, gap, j);
    GapTextNext(gap, s);
    assert src[i..next] == src[i..j] + src[j..next];
    forall k | 0 <= k < |gap + [s]|
      ensures SpaceFits(gap + [s], k, true)
    {
      if k < |gap| {
        assert SpaceFits(gap, k, true);
      }
    }
    assert EndsAt(src, gap + [s], next);
  }

  /** Before a token a line comment has ended. */
  lemma {:induction false} BlankEnds(src: string, i: nat, j: nat)
    requires BlankUpTo(src, i, j) && j < |src| && src[j] != '\n'
    ensures IsBlank(src, i, j, false)
  {
    hide IsSpace, GapText;
    var gap: seq<Space> :| IsGap(gap, true) && GapText(gap) == src[i..j] && EndsAt(src, gap, j);
    forall k | 0 <= k < |gap|
      ensures SpaceFits(gap, k, false)
    {
      assert SpaceFits(gap, k, true);
    }
    assert IsGap(gap, false);
  }

  lemma NothingYet(src: string, i: nat)
    requires i <= |src|
    ensures BlankUpTo(src, i, i)
  {
    var gap: seq<Space> := [];
    assert IsGap(gap, true) && GapText(gap) == src[i..i] && EndsAt(src, gap, i);
  }

  lemma LexemeStarts(src: string, i: nat, prev: string, limit: nat)
    requires i < |src| && PieceAt(src, i, prev, limit).Lexeme?
    ensures src[i] != '\n' && i < PieceAt(src, i, prev, limit).end <= |src|
  {
    hide Template, RegexAllowed, StringEnd, RegexStop;
  }

  /** What stands between the last token and j. */
  ghost predicate BlankTail(src: string, from: nat) {
    BlankUpTo(src, from, |src|) || exists j: nat :: BlankUpTo(src, from, j) && OpenComment(src, j)
  }

  lemma {:induction false} LexBlanks(src: string, l: Lexer, maxTokens: nat, limit: nat)
    requires BlankBefore(src, l.spans) && l.i <= |src| && BlankUpTo(src, EndBefore(l.spans, |l.spans|), l.i)
    ensures var r := LexFrom(src, l, maxTokens, limit);
            BlankBefore(src, r.spans) && (!r.cut ==> BlankTail(src, EndBefore(r.spans, |r.spans|)))
    decreases |src| - l.i
  {
    hide PieceAt, BlankUpTo, IsBlank, PrevText, OpenComment;
    if l.i < |src| && |l.spans| != maxTokens {
      var prev := PrevText(src, l.spans);
      var p := PieceAt(src, l.i, prev, limit);
      var from := EndBefore(l.spans, |l.spans|);
      match p
      case TooDeep =>
      case Gap(next, _, _) =>
        var s := GapIsSpace(src, l.i, prev, limit);
        if next <= |src| {
          BlankNext(src, from, l.i, next, s);
          LexBlanks(src, Apply(l, p), maxTokens, limit);
        }
      case Lexeme(end, _) =>
        LexemeStarts(src, l.i, prev, limit);
        BlankEnds(src, from, l.i);
        NothingYet(src, end);
        SpanAdded(src, l.spans, Span(l.i, end, l.line));
        LexBlanks(src, Apply(l, p), maxTokens, limit);
    }
  }

  lemma {:induction false} SpanAdded(src: string, spans: seq<Span>, span: Span)
    requires BlankBefore(src, spans) && IsBlank(src, EndBefore(spans, |spans|), span.start, false)
    ensures BlankBefore(src, spans + [span])
  {
    hide IsBlank;
    forall k | 0 <= k < |spans| + 1
      ensures IsBlank(src, EndBefore(spans + [span], k), (spans + [span])[k].start, false)
    {
      assert EndBefore(spans + [span], k) == EndBefore(spans, k);
    }
  }

  /**
   Of any source, nothing but blanks and comments lies before, between and, unless a bound cut the
   tokens, after them; only a comment that nothing closes takes the rest of the source with it.
   */
  lemma {:induction false} OnlyBlanksBetween(src: string, maxTokens: nat, limit: nat)
    ensures var r := Lex(src, maxTokens, limit);
            BlankBefore(src, r.spans) && (!r.cut ==> BlankTail(src, EndBefore(r.spans, |r.spans|)))
  {
    hide LexFrom, BlankUpTo, IsBlank;
    NothingYet(src, 0);
    LexBlanks(src, LEX_START, maxTokens, limit);
  }
}

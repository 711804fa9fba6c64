/** The line of a token is one more than the line breaks before it, exactly when no regular expression swallowed one. */
module ScriptLines {
  import opened ScriptParse
  import opened ScriptLex
  import opened ScriptText
  import opened ScriptSources

  /** The line breaks within a regular expression, which the tokenizer does not count. */
  function SwallowedBy(src: string, s: Span): nat {
    var text := Text(src, s);
    if text != [] && text[0] == '/' then Newlines(text) else 0
  }

  function Swallowed(src: string, spans: seq<Span>): nat {
    if spans == [] then 0 else Swallowed(src, spans[..|spans| - 1]) + SwallowedBy(src, spans[|spans| - 1])
  }

  // ----- one piece -----

  lemma {:induction false} SliceNewlines(src: string, i: nat, j: nat)
    requires i <= j <= |src| && forall k :: i <= k < j ==> src[k] != '\n'
    ensures Newlines(src[i..j]) == 0
  {
    NewlinesNone(src[i..j]);
  }

  lemma {:induction false} StringHasNone(src: string, i: nat, quote: char)
    requires i <= |src|
    ensures forall k :: i <= k < StringStop(src, i, quote) ==> src[k] != '\n'
    decreases |src| - i
  {
    if i < |src| && src[i] != quote && src[i] != '\n' {
      StringHasNone(src, if src[i] == '\\' && i + 1 < |src| && src[i + 1] != '\n' then i + 2 else i + 1, quote);
    }
  }

  lemma {:induction false} IdentHasNone(src: string, i: nat)
    requires i <= |src|
    ensures forall k :: i <= k < IdentEnd(src, i) ==> src[k] != '\n'
    decreases |src| - i
  {
    if i < |src| && IdentPart(src[i]) {
      IdentHasNone(src, i + 1);
    }
  }

  lemma {:induction false} NumberHasNone(src: string, i: nat)
    requires i <= |src|
    ensures forall k :: i <= k < NumberEnd(src, i) ==> src[k] != '\n'
    decreases |src| - i
  {
    if i < |src| && (IdentPart(src[i]) || src[i] == '.') {
      NumberHasNone(src, i + 1);
    }
  }

  /** The tokenizer counts the line breaks of everything it reads, but for those of a regular expression. */
  lemma {:induction false} LexemeLines(src: string, i: nat, prev: string, limit: nat)
    requires i < |src| && PieceAt(src, i, prev, limit).Lexeme?
    ensures i < PieceAt(src, i, prev, limit).end <= |src|
    ensures var p := PieceAt(src, i, prev, limit); p.lines == if src[i] == '/' then 0 else Newlines(src[i..p.end])
  {
    hide Template, RegexAllowed, StringEnd, RegexStop, IdentEnd, NumberEnd;
    var c := src[i];
    var end := PieceAt(src, i, prev, limit).end;
    if c == '"' || c == '\'' {
      QuotedLines(src, i);
    } else if c == '`' || c == '/' {
    } else if IdentStart(c) {
      IdentHasNone(src, i);
      SliceNewlines(src, i, end);
    } else if Digit(c) {
      NumberHasNone(src, i);
      SliceNewlines(src, i, end);
    } else {
      SignLines(src, i);
    }
  }

  lemma {:induction false} QuotedLines(src: string, i: nat)
    requires i < |src| && (src[i] == '"' || src[i] == '\'')
    ensures Newlines(src[i..StringEnd(src, i)]) == 0
  {
    StringHasNone(src, i + 1, src[i]);
    SliceNewlines(src, i, StringEnd(src, i));
  }

  lemma {:induction false} SignLines(src: string, i: nat)
    requires i < |src| && src[i] != '\n'
    ensures Newlines(src[i..i + PunctuationLength(src, i)]) == 0
  {
    SliceNewlines(src, i, i + PunctuationLength(src, i));
  }

  lemma {:induction false} GapLines(src: string, i: nat, prev: string, limit: nat)
    requires i < |src| && PieceAt(src, i, prev, limit).Gap? && PieceAt(src, i, prev, limit).next <= |src|
    ensures var p := PieceAt(src, i, prev, limit); i < p.next && p.lines == Newlines(src[i..p.next])
  {
    hide Newlines, PieceAt;
    var s := GapIsSpace(src, i, prev, limit);
    GapCounts(src, i, prev, limit, s);
  }

  lemma {:induction false} GapCounts(src: string, i: nat, prev: string, limit: nat, s: Space)
    requires i < |src| && PieceAt(src, i, prev, limit).Gap?
    requires var next := PieceAt(src, i, prev, limit).next;
             next <= |src| && IsSpace(s) && SpaceText(s) == src[i..next] && (s.Remark? ==> next == |src| || src[next] == '\n')
    ensures PieceAt(src, i, prev, limit).lines == Newlines(src[i..PieceAt(src, i, prev, limit).next])
    ensures i < PieceAt(src, i, prev, limit).next
  {
    hide PieceAt, IsSpace, SpaceText;
    SpaceIsRead(src, i, prev, limit, s, "");
  }

  // ----- all tokens -----

  /** The lines so far, with what was swallowed, are the line breaks so far. */
  predicate CountsLines(src: string, l: Lexer)
    requires l.i <= |src|
  {
    l.line + Swallowed(src, l.spans) == 1 + Newlines(src[..l.i])
  }

  /** Each token's line, with what was swallowed before it, is one more than the line breaks before it. */
  predicate LineIs(src: string, spans: seq<Span>, k: nat)
    requires k < |spans|
  {
    spans[k].start <= |src| && spans[k].line + Swallowed(src, spans[..k]) == 1 + Newlines(src[..spans[k].start])
  }

  lemma {:induction false} PrefixNewlines(src: string, i: nat, j: nat)
    requires i <= j <= |src|
    ensures Newlines(src[..j]) == Newlines(src[..i]) + Newlines(src[i..j])
  {
    assert src[..j] == src[..i] + src[i..j];
    NewlinesBoth(src[..i], src[i..j]);
  }

  predicate LinesAre(src: string, spans: seq<Span>) {
    forall k :: 0 <= k < |spans| ==> LineIs(src, spans, k)
  }

  lemma {:induction false} GapCountsLines(src: string, l: Lexer, prev: string, limit: nat)
    requires l.i < |src| && CountsLines(src, l) && PieceAt(src, l.i, prev, limit).Gap? && PieceAt(src, l.i, prev, limit).next <= |src|
    ensures l.i < PieceAt(src, l.i, prev, limit).next && CountsLines(src, Apply(l, PieceAt(src, l.i, prev, limit)))
  {
    hide PieceAt, Newlines, Swallowed;
    GapLines(src, l.i, prev, limit);
    PrefixNewlines(src, l.i, PieceAt(src, l.i, prev, limit).next);
  }

  lemma {:induction false} LexemeCountsLines(src: string, l: Lexer, prev: string, limit: nat)
    requires l.i < |src| && CountsLines(src, l) && PieceAt(src, l.i, prev, limit).Lexeme? && LinesAre(src, l.spans)
    ensures var next := Apply(l, PieceAt(src, l.i, prev, limit)); l.i < next.i <= |src| && CountsLines(src, next) && LinesAre(src, next.spans)
  {
    hide PieceAt, Newlines, Swallowed, LineIs;
    var end := PieceAt(src, l.i, prev, limit).end;
    LexemeLines(src, l.i, prev, limit);
    PrefixNewlines(src, l.i, end);
    LineAdded(src, l.spans, Span(l.i, end, l.line));
  }

  lemma {:induction false} LexLines(src: string, l: Lexer, maxTokens: nat, limit: nat)
    requires l.i <= |src| && CountsLines(src, l) && LinesAre(src, l.spans)
    ensures LinesAre(src, LexFrom(src, l, maxTokens, limit).spans)
    decreases |src| - l.i
  {
    hide PieceAt, PrevText, CountsLines, LinesAre;
    if l.i < |src| && |l.spans| != maxTokens {
      var prev := PrevText(src, l.spans);
      var p := PieceAt(src, l.i, prev, limit);
      match p
      case TooDeep =>
      case Gap(next, _, _) =>
        if next <= |src| {
          GapCountsLines(src, l, prev, limit);
          LexLines(src, Apply(l, p), maxTokens, limit);
        }
      case Lexeme(_, _) =>
        LexemeCountsLines(src, l, prev, limit);
        LexLines(src, Apply(l, p), maxTokens, limit);
    }
  }

  lemma {:induction false} LineAdded(src: string, spans: seq<Span>, s: Span)
    requires LinesAre(src, spans)
    requires s.start < s.end <= |src| && s.line + Swallowed(src, spans) == 1 + Newlines(src[..s.start])
    ensures LinesAre(src, spans + [s])
    ensures Swallowed(src, spans + [s]) == Swallowed(src, spans) + if src[s.start] == '/' then Newlines(src[s.start..s.end]) else 0
  {
    hide Newlines;
    forall k | 0 <= k < |spans| + 1
      ensures LineIs(src, spans + [s], k)
    {
      if k < |spans| {
        assert (spans + [s])[..k] == spans[..k] && LineIs(src, spans, k);
      } else {
        assert (spans + [s])[..k] == spans;
      }
    }
    assert (spans + [s])[..|spans|] == spans;
  }

  lemma {:induction false} NothingSwallowed(src: string, spans: seq<Span>)
    ensures Swallowed(src, spans) == 0 <==> forall j :: 0 <= j < |spans| ==> SwallowedBy(src, spans[j]) == 0
  {
    hide SwallowedBy;
    if spans != [] {
      NothingSwallowed(src, spans[..|spans| - 1]);
    }
  }

  /**
   The line of a token is one more than the line breaks before it if and only if no regular
   expression before it holds a line break.
   */
  lemma {:induction false} LineExact(src: string, maxTokens: nat, limit: nat, k: nat)
    requires k < |Lex(src, maxTokens, limit).spans|
    ensures var spans := Lex(src, maxTokens, limit).spans;
            && spans[k].start <= |src|
            && (spans[k].line == 1 + Newlines(src[..spans[k].start]) <==> forall j :: 0 <= j < k ==> SwallowedBy(src, spans[j]) == 0)
  {
    hide LexFrom, SwallowedBy;
    NewlinesNone("");
    assert src[..0] == "";
    LexLines(src, LEX_START, maxTokens, limit);
    var spans := Lex(src, maxTokens, limit).spans;
    assert LineIs(src, spans, k);
    NothingSwallowed(src, spans[..k]);
  }

  /** A regular expression with an escaped line break, and a word two lines below its start. */
  const SWALLOWING := "/\\\n/\nx"

  /** The word is on line 3 and is reported on line 2. */
  lemma {:induction false} LineLost()
    ensures Lex(SWALLOWING, 9, 9) == Lexed([Span(0, 4, 1), Span(5, 6, 2)], map[], false)
    ensures 1 + Newlines(SWALLOWING[..5]) == 3
  {
    var src := SWALLOWING;
    assert src == ['/', '\\', '\n', '/', '\n', 'x'];
    assert RegexStop(src, 1, false) == RegexStop(src, 3, false) == 4;
    assert IdentEnd(src, 4) == 4 && IdentEnd(src, 5) == IdentEnd(src, 6) == 6;
    assert PieceAt(src, 0, "", 9) == Lexeme(4, 0);
    assert PieceAt(src, 4, src[0..4], 9) == Gap(5, 1, "");
    assert PieceAt(src, 5, src[0..4], 9) == Lexeme(6, 0);
    var first := Lexer(4, 1, "", [Span(0, 4, 1)], map[]);
    assert Apply(LEX_START, Lexeme(4, 0)) == first;
    assert LexFrom(src, LEX_START, 9, 9) == LexFrom(src, first, 9, 9);
    assert LexFrom(src, first, 9, 9) == LexFrom(src, first.(i := 5, line := 2), 9, 9);
    assert LexFrom(src, first.(i := 5, line := 2), 9, 9) == LexFrom(src, Lexer(6, 2, "", [Span(0, 4, 1), Span(5, 6, 2)], map[]), 9, 9);
    FiveBytes();
  }

  lemma FiveBytes()
    ensures Newlines(SWALLOWING[..5]) == 2
  {
    assert SWALLOWING[..5] == ['/', '\\'] + (['\n'] + (['/'] + ['\n']));
    NewlinesBoth(['/', '\\'], ['\n'] + (['/'] + ['\n']));
    NewlinesBoth(['\n'], ['/'] + ['\n']);
    NewlinesBoth(['/'], ['\n']);
    NewlinesNone(['/', '\\']);
    NewlinesNone(['/']);
  }
}

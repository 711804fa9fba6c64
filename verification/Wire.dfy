/** The bytes of a raw stream: the canonical records with their line breaks, and that nothing else is read as one. */
module Wire {
  import opened Utf8
  import opened Json
  import opened Records

  // ----- JSON objects of numbers, strings and flags -----

  datatype Value = Num(n: int) | Str(s: string) | Flag(b: bool)

  datatype Member = Member(key: string, value: Value)

  function RenderValue(v: Value): (s: string)
    ensures NoControl(s)
  {
    match v
    case Num(n) => Itoa(n)
    case Str(s) => Quote(s)
    case Flag(b) => if b then "true" else "false"
  }

  function RenderMember(m: Member): (s: string)
    ensures NoControl(s)
  {
    Quote(m.key) + (":" + RenderValue(m.value))
  }

  function RenderMembers(ms: seq<Member>): (s: string)
    requires ms != []
    ensures NoControl(s)
  {
    RenderMember(ms[0]) + (if |ms| == 1 then "}" else "," + RenderMembers(ms[1..]))
  }

  function RenderObject(ms: seq<Member>): (s: string)
    requires ms != []
    ensures NoControl(s)
  {
    "{" + RenderMembers(ms)
  }

  function ScanLiteral(s: string, literal: string): (r: Option<string>)
    requires literal != []
    ensures r.Some? ==> |r.value| < |s|
  {
    if literal <= s then Some(s[|literal|..]) else None
  }

  function ScanValue(s: string): (r: Option<Scan<Value>>)
    ensures r.Some? ==> |r.value.rest| < |s|
  {
    if s == [] then None
    else if s[0] == '"' then
      var q :- ScanQuoted(s);
      Some(Scan(Str(q.value), q.rest))
    else if s[0] == 't' then
      var rest :- ScanLiteral(s, "true");
      Some(Scan(Flag(true), rest))
    else if s[0] == 'f' then
      var rest :- ScanLiteral(s, "false");
      Some(Scan(Flag(false), rest))
    else
      var n :- ScanInt(s);
      Some(Scan(Num(n.value), n.rest))
  }

  function ScanMember(s: string): (r: Option<Scan<Member>>)
    ensures r.Some? ==> |r.value.rest| < |s|
  {
    var key :- ScanQuoted(s);
    var colon :- ScanLiteral(key.rest, ":");
    var value :- ScanValue(colon);
    Some(Scan(Member(key.value, value.value), value.rest))
  }

  function ScanMembers(s: string): Option<seq<Member>>
    decreases |s|
  {
    var m :- ScanMember(s);
    if |m.rest| == 1 && m.rest[0] == '}' then Some([m.value])
    else
      var next :- ScanLiteral(m.rest, ",");
      var ms :- ScanMembers(next);
      Some([m.value] + ms)
  }

  function ParseObject(s: string): Option<seq<Member>> {
    var body :- ScanLiteral(s, "{");
    ScanMembers(body)
  }

  lemma ScanLiteralOf(literal: string, rest: string)
    requires literal != []
    ensures ScanLiteral(literal + rest, literal) == Some(rest)
  {}

  lemma ScanValueOfRender(v: Value, rest: string)
    requires rest != [] && !IsDigit(rest[0])
    ensures ScanValue(RenderValue(v) + rest) == Some(Scan(v, rest))
  {
    var s := RenderValue(v) + rest;
    match v
    case Num(n) =>
      ScanIntOfItoa(n, rest);
      assert s[0] == Itoa(n)[0];
    case Str(x) =>
      ScanQuotedOfQuote(x, rest);
      assert s[0] == '"';
    case Flag(b) =>
      ScanLiteralOf(RenderValue(v), rest);
      assert s[0] == RenderValue(v)[0];
  }

  lemma ScanMemberOfRender(m: Member, rest: string)
    requires rest != [] && !IsDigit(rest[0])
    ensures ScanMember(RenderMember(m) + rest) == Some(Scan(m, rest))
  {
    var value := RenderValue(m.value) + rest;
    assert RenderMember(m) + rest == Quote(m.key) + (":" + value);
    ScanQuotedOfQuote(m.key, ":" + value);
    ScanLiteralOf(":", value);
    ScanValueOfRender(m.value, rest);
  }

  lemma ScanLastMember(m: Member)
    ensures ScanMembers(RenderMember(m) + "}") == Some([m])
  {
    ScanMemberOfRender(m, "}");
  }

  lemma ScanNextMember(m: Member, more: string, ms: seq<Member>)
    requires ScanMembers(more) == Some(ms)
    ensures ScanMembers(RenderMember(m) + ("," + more)) == Some([m] + ms)
  {
    ScanMemberOfRender(m, "," + more);
    ScanLiteralOf(",", more);
  }

  lemma {:induction false} ScanMembersOfRender(ms: seq<Member>)
    requires ms != []
    ensures ScanMembers(RenderMembers(ms)) == Some(ms)
  {
    if |ms| == 1 {
      ScanLastMember(ms[0]);
      assert ms == [ms[0]];
    } else {
      ScanMembersOfRender(ms[1..]);
      ScanNextMember(ms[0], RenderMembers(ms[1..]), ms[1..]);
      assert ms == [ms[0]] + ms[1..];
    }
  }

  /** Decoding a rendered object gives its members back. */
  lemma ParseObjectOfRender(ms: seq<Member>)
    requires ms != []
    ensures ParseObject(RenderObject(ms)) == Some(ms)
  {
    ScanLiteralOf("{", RenderMembers(ms));
    ScanMembersOfRender(ms);
  }

  // ----- records -----

  function Fields(l: Line): (ms: seq<Member>)
    ensures ms != []
  {
    match l
    case Head(f, suffix, test) =>
      [Member("f", Num(f)), Member("k", Str("head")), Member("s", Str(suffix)), Member("w", Str(test))]
    case Begin(f, n) => [Member("f", Num(f)), Member("k", Str("begin")), Member("n", Num(n))]
    case Seen(f, i, o) =>
      [Member("f", Num(f)), Member("k", Str("obs")), Member("i", Num(i)), Member("h", Str(o.hash)),
       Member("l", Num(o.length)), Member("o", Str(o.shown)), Member("p", Flag(o.panicked)),
       Member("d", Flag(o.unstable)), Member("t", Flag(o.truncated))]
    case Stop(f, i, x) =>
      [Member("f", Num(f)), Member("k", Str("stop")), Member("i", Num(i)), Member("x", Str(x))]
    case End(f, n) => [Member("f", Num(f)), Member("k", Str("end")), Member("n", Num(n))]
    case Done(f, test, n) =>
      [Member("f", Num(f)), Member("k", Str("done")), Member("w", Str(test)), Member("n", Num(n))]
  }

  /** The canonical form: the bytes the harness writes for a record. */
  function Canon(l: Line): (s: string)
    ensures NoControl(s)
  {
    RenderObject(Fields(l))
  }

  /** The record of a decoded object; its key names are left to the canonical comparison. */
  function LineOf(ms: seq<Member>): Option<Line> {
    if |ms| < 3 || !ms[0].value.Num? || !ms[1].value.Str? then None
    else
      var f := ms[0].value.n;
      var kind := ms[1].value.s;
      var third := ms[2].value;
      if |ms| == 3 && third.Num? && kind == "begin" then Some(Begin(f, third.n))
      else if |ms| == 3 && third.Num? && kind == "end" then Some(End(f, third.n))
      else if |ms| == 4 then
        var last := ms[3].value;
        if kind == "stop" && third.Num? && last.Str? then Some(Stop(f, third.n, last.s))
        else if kind == "head" && third.Str? && last.Str? then Some(Head(f, third.s, last.s))
        else if kind == "done" && third.Str? && last.Num? then Some(Done(f, third.s, last.n))
        else None
      else if |ms| == 9 && kind == "obs" && third.Num? then
        var o :- ObsOf(ms);
        Some(Seen(f, third.n, o))
      else None
  }

  function ObsOf(ms: seq<Member>): Option<Obs>
    requires |ms| == 9
  {
    if ms[3].value.Str? && ms[4].value.Num? && ms[5].value.Str? && ms[6].value.Flag? && ms[7].value.Flag? && ms[8].value.Flag?
    then Some(Obs(ms[3].value.s, ms[4].value.n, ms[5].value.s, ms[6].value.b, ms[7].value.b, ms[8].value.b))
    else None
  }

  lemma LineOfFields(l: Line)
    ensures LineOf(Fields(l)) == Some(l)
  {
    assert "begin"[0] == 'b' && "end"[0] == 'e' && "obs"[0] == 'o' && "stop"[0] == 's' && "head"[0] == 'h' && "done"[0] == 'd';
  }

  predicate Int64(n: int) {
    -0x8000_0000_0000_0000 <= n < 0x8000_0000_0000_0000
  }

  /**
   The records a decoder can return: numbers that fit an int, valid UTF-8 strings, a positive
   function index, and a hash without a byte to escape (its canonical form copies it as it is).
   */
  predicate WellFormed(l: Line) {
    && 1 <= l.f && Int64(l.f)
    && match l
       case Head(_, suffix, test) => Valid(suffix) && Valid(test)
       case Begin(_, n) => Int64(n)
       case Seen(_, i, o) => Int64(i) && Int64(o.length) && Valid(o.hash) && Escape(o.hash) == o.hash && Valid(o.shown)
       case Stop(_, i, x) => Int64(i) && Valid(x)
       case End(_, n) => Int64(n)
       case Done(_, test, n) => Valid(test) && Int64(n)
  }

  /** parseRawLine, with the two framing records of a script stream. */
  function ParseLine(s: string): Option<Line> {
    var ms :- ParseObject(s);
    var l :- LineOf(ms);
    if WellFormed(l) && Canon(l) == s then Some(l) else None
  }

  /** A line is read as a record exactly when it is the canonical form of that record. */
  lemma ParseLineExact(s: string, l: Line)
    ensures ParseLine(s) == Some(l) <==> WellFormed(l) && Canon(l) == s
  {
    ParseObjectOfRender(Fields(l));
    LineOfFields(l);
  }

  /** Two records never share a canonical form. */
  lemma CanonInjective(l: Line, m: Line)
    requires WellFormed(l) && WellFormed(m) && Canon(l) == Canon(m)
    ensures l == m
  {
    ParseLineExact(Canon(l), l);
    ParseLineExact(Canon(m), m);
  }

  // ----- lines -----

  /** What the harness appends to the observation file: every line with its line break. */
  function Payload(lines: seq<string>): string {
    if lines == [] then "" else lines[0] + ("\n" + Payload(lines[1..]))
  }

  /** strings.Split(s, "\n"). */
  function Split(s: string): (lines: seq<string>)
    ensures lines != []
    decreases |s|
  {
    if s == [] then [""]
    else if s[0] == '\n' then [""] + Split(s[1..])
    else
      var rest := Split(s[1..]);
      [[s[0]] + rest[0]] + rest[1..]
  }

  /** The lines of a payload that ends with a complete line. */
  function Lines(payload: string): (lines: seq<string>)
    requires payload != []
    ensures lines != []
  {
    Split(payload[..|payload| - 1])
  }

  lemma {:induction false} SplitFirstLine(line: string, rest: string)
    requires '\n' !in line
    ensures Split(line) == [line]
    ensures Split(line + ("\n" + rest)) == [line] + Split(rest)
    decreases |line|
  {
    var s := line + ("\n" + rest);
    if line == [] {
      assert s == "\n" + rest;
      assert s[1..] == rest;
    } else {
      assert line[0] != '\n';
      SplitFirstLine(line[1..], rest);
      assert s[1..] == line[1..] + ("\n" + rest);
      assert [line[0]] + line[1..] == line;
    }
  }

  lemma {:induction false} SplitOfPayload(lines: seq<string>)
    requires forall k :: 0 <= k < |lines| ==> '\n' !in lines[k]
    ensures Split(Payload(lines)) == lines + [""]
    decreases |lines|
  {
    if lines != [] {
      SplitFirstLine(lines[0], Payload(lines[1..]));
      SplitOfPayload(lines[1..]);
    }
  }

  /** Splitting a payload at its line breaks recovers exactly the lines written. */
  lemma {:induction false} LinesOfPayload(lines: seq<string>)
    requires lines != []
    requires forall k :: 0 <= k < |lines| ==> NoControl(lines[k])
    ensures Payload(lines) != [] && Payload(lines)[|Payload(lines)| - 1] == '\n'
    ensures Lines(Payload(lines)) == lines
  {
    var p := Payload(lines);
    if |lines| == 1 {
      assert Payload(lines[1..]) == "";
      assert p == lines[0] + "\n";
      assert p[..|p| - 1] == lines[0];
      SplitFirstLine(lines[0], "");
    } else {
      var q := Payload(lines[1..]);
      LinesOfPayload(lines[1..]);
      assert p == lines[0] + ("\n" + q);
      assert p[..|p| - 1] == lines[0] + ("\n" + q[..|q| - 1]);
      SplitFirstLine(lines[0], q[..|q| - 1]);
      assert [lines[0]] + lines[1..] == lines;
    }
  }

  /** No payload is lost by splitting: its lines write it again. */
  lemma {:induction false} PayloadOfLines(s: string)
    ensures Payload(Split(s)) == s + "\n"
    decreases |s|
  {
    if s == [] {
      assert Payload([""][1..]) == "";
    } else {
      PayloadOfLines(s[1..]);
      var rest := Split(s[1..]);
      if s[0] == '\n' {
        assert ([""] + rest)[1..] == rest;
        assert "" + ("\n" + Payload(rest)) == s + "\n";
      } else {
        var first := [s[0]] + rest[0];
        assert ([first] + rest[1..])[1..] == rest[1..];
        assert Payload(rest) == rest[0] + ("\n" + Payload(rest[1..]));
        assert first + ("\n" + Payload(rest[1..])) == [s[0]] + Payload(rest);
      }
    }
  }

  function Canons(ls: seq<Line>): (r: seq<string>)
    ensures |r| == |ls|
    ensures forall k :: 0 <= k < |ls| ==> r[k] == Canon(ls[k])
  {
    seq(|ls|, k requires 0 <= k < |ls| => Canon(ls[k]))
  }

  /** The observation file of a process that wrote `ls`. */
  function File(ls: seq<Line>): string {
    Payload(Canons(ls))
  }
}

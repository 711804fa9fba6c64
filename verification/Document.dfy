/** The text of a normalized stream: encodeStream, which loses nothing and keeps a redaction match inside one string. */
module Document {
  import opened Utf8
  import opened Json
  import opened Text
  import opened Records
  import opened Credentials
  import Wire

  // ----- strings as encoding/json writes them -----

  function Unescape(s: string): string {
    if s == [] then []
    else if s[0] != '\\' || |s| < 2 then [s[0]] + Unescape(s[1..])
    else if s[1] == 'u' && |s| >= 6 then Code(s[2..6]) + Unescape(s[6..])
    else [Short(s[1])] + Unescape(s[2..])
  }

  function Code(digits: string): string
    requires |digits| == 4
  {
    if digits == "2028" then ['\U{e2}', '\U{80}', '\U{a8}']
    else if digits == "2029" then ['\U{e2}', '\U{80}', '\U{a9}']
    else match (HexValue(digits[2]), HexValue(digits[3]))
         case (Some(high), Some(low)) => if 16 * high + low < 128 then [(16 * high + low) as char] else []
         case _ => []
  }

  function Short(c: char): char {
    match c
    case 'n' => '\n'
    case 'r' => '\r'
    case 't' => '\t'
    case 'b' => '\U{8}'
    case 'f' => '\U{c}'
    case _ => c
  }

  lemma UnescapeByte(c: char, rest: string)
    ensures Unescape(MarshalByte(c) + rest) == [c] + Unescape(rest)
  {
    hide HexValue, HexDigit, Unescape, Code, Short;
    var e := MarshalByte(c);
    if |e| == 6 {
      CodeOfByte(c);
      assert e[2..6] == ['0', '0', HexDigit(c as int / 16), HexDigit(c as int % 16)];
      UnescapeCode(e, rest);
    } else if |e| == 2 {
      ShortOfByte(c);
      UnescapeShort(e, rest);
    } else {
      UnescapePlain(c, rest);
    }
  }

  lemma ShortOfByte(c: char)
    requires |MarshalByte(c)| == 2
    ensures MarshalByte(c)[0] == '\\' && MarshalByte(c)[1] != 'u' && Short(MarshalByte(c)[1]) == c
  {}

  lemma UnescapePlain(c: char, rest: string)
    requires c != '\\'
    ensures Unescape([c] + rest) == [c] + Unescape(rest)
  {
    assert ([c] + rest)[1..] == rest;
  }

  lemma UnescapeShort(e: string, rest: string)
    requires |e| == 2 && e[0] == '\\' && e[1] != 'u'
    ensures Unescape(e + rest) == [Short(e[1])] + Unescape(rest)
  {
    hide Short;
    assert (e + rest)[2..] == rest;
  }

  lemma UnescapeCode(e: string, rest: string)
    requires |e| == 6 && e[0] == '\\' && e[1] == 'u'
    ensures Unescape(e + rest) == Code(e[2..6]) + Unescape(rest)
  {
    hide Code;
    assert (e + rest)[6..] == rest && (e + rest)[2..6] == e[2..6];
  }

  lemma CodeOfByte(c: char)
    requires c < ' ' || c == '<' || c == '>' || c == '&'
    ensures Code(['0', '0', HexDigit(c as int / 16), HexDigit(c as int % 16)]) == [c]
  {
    HexRoundTrip(c as int / 16);
    HexRoundTrip(c as int % 16);
    assert 16 * (c as int / 16) + c as int % 16 == c as int;
  }

  lemma {:induction false} UnescapeOfMarshal(s: string)
    ensures Unescape(MarshalText(s)) == s
    decreases |s|
  {
    hide Unescape, MarshalByte;
    if s == [] {
      UnescapeEmpty();
    } else if |s| >= 3 && s[0] == '\U{e2}' && s[1] == '\U{80}' && (s[2] == '\U{a8}' || s[2] == '\U{a9}') {
      UnescapeOfMarshal(s[3..]);
      UnescapeSeparator(s[2], MarshalText(s[3..]));
      assert s == s[..3] + s[3..];
    } else {
      UnescapeOfMarshal(s[1..]);
      UnescapeByte(s[0], MarshalText(s[1..]));
    }
  }

  lemma UnescapeEmpty()
    ensures Unescape("") == ""
  {}

  lemma UnescapeSeparator(c: char, rest: string)
    requires c == '\U{a8}' || c == '\U{a9}'
    ensures Unescape("\\u202" + [if c == '\U{a8}' then '8' else '9'] + rest) == ['\U{e2}', '\U{80}', c] + Unescape(rest)
  {
    hide Unescape;
    var e := "\\u202" + [if c == '\U{a8}' then '8' else '9'];
    UnescapeCode(e, rest);
    assert e[2..6] == "202" + [if c == '\U{a8}' then '8' else '9'];
    assert Code(e[2..6]) == ['\U{e2}', '\U{80}', c];
  }

  lemma MarshalInjective(s: string, t: string)
    requires Marshal(s) == Marshal(t)
    ensures s == t
  {
    hide MarshalText, Unescape;
    UnescapeOfMarshal(s);
    UnescapeOfMarshal(t);
    assert Marshal(s)[1..|Marshal(s)| - 1] == MarshalText(s) && Marshal(t)[1..|Marshal(t)| - 1] == MarshalText(t);
  }

  lemma MarshalByteIsText(c: char)
    ensures NoControl(MarshalByte(c))
  {}

  lemma {:induction false} MarshalTextIsText(s: string)
    ensures NoControl(MarshalText(s))
    decreases |s|
  {
    hide MarshalByte;
    if s != [] {
      MarshalByteIsText(s[0]);
      MarshalTextIsText(s[1..]);
      if |s| >= 3 {
        MarshalTextIsText(s[3..]);
      }
    }
  }

  lemma MarshalIsText(s: string)
    ensures NoControl(Marshal(s))
  {
    hide MarshalText;
    MarshalTextIsText(s);
  }

  // ----- lines of the text -----

  datatype Value = Text(text: string) | Number(n: int) | Flag(b: bool) | Opens | Empty | Null

  /** One line: a bracket, or a member with its value and the comma after it. */
  datatype Item = Mark(text: string) | Member(key: string, value: Value, comma: bool)

  const MARKS := {"{", "}", "},", "]"}

  predicate Plain(key: string) {
    forall k :: 0 <= k < |key| ==> 'a' <= key[k] <= 'z' || key[k] == '_'
  }

  predicate ItemOk(i: Item) {
    match i
    case Mark(text) => text in MARKS
    case Member(key, _, _) => Plain(key)
  }

  function ValueText(v: Value): (t: string)
    ensures |t| > 0
  {
    match v
    case Text(s) => Marshal(s)
    case Number(n) => Itoa(n)
    case Flag(b) => if b then "true" else "false"
    case Opens => "["
    case Empty => "[]"
    case Null => "null"
  }

  function ItemText(i: Item): string {
    match i
    case Mark(text) => text
    case Member(key, v, comma) => "\"" + key + ("\"" + (": " + (ValueText(v) + (if comma then "," else ""))))
  }

  lemma FirstOfValue(v: Value)
    ensures match v
            case Text(_) => ValueText(v)[0] == '"'
            case Number(_) => IsDigit(ValueText(v)[0]) || ValueText(v)[0] == '-'
            case Flag(_) => ValueText(v)[0] == 't' || ValueText(v)[0] == 'f'
            case Opens => ValueText(v) == "["
            case Empty => ValueText(v) == "[]"
            case Null => ValueText(v)[0] == 'n'
  {
    hide Marshal;
    match v
    case Text(s) => MarshalQuoted(s);
    case Number(n) => assert IsDigit(Digits(if n < 0 then -n else n)[0]);
    case _ =>
  }

  lemma MarshalQuoted(s: string)
    ensures Marshal(s)[0] == '"' && Marshal(s)[|Marshal(s)| - 1] == '"'
  {
    hide MarshalText;
  }

  /** No value ends with a comma or holds a line feed. */
  lemma LastOfValue(v: Value)
    ensures ValueText(v)[|ValueText(v)| - 1] != ',' && NoControl(ValueText(v))
  {
    hide Marshal;
    match v
    case Text(s) =>
      MarshalQuoted(s);
      MarshalIsText(s);
    case Number(n) =>
      var d := Digits(if n < 0 then -n else n);
      assert IsDigit(d[|d| - 1]) && Itoa(n)[|Itoa(n)| - 1] == d[|d| - 1];
    case _ =>
  }

  lemma ValueInjective(v: Value, w: Value)
    requires ValueText(v) == ValueText(w)
    ensures v == w
  {
    hide Marshal, Itoa;
    FirstOfValue(v);
    FirstOfValue(w);
    match v
    case Text(s) => MarshalInjective(s, w.text);
    case Number(n) => ItoaInjective(n, w.n);
    case _ =>
  }

  lemma PlainKey(key: string)
    requires Plain(key)
    ensures '"' !in key && '/' !in key && NoControl(key)
  {}

  lemma MemberText(key: string, rest: string)
    requires Plain(key)
    ensures var t := "\"" + key + ("\"" + rest);
            t[0] == '"' && FirstByte(t[1..], '"') == |key| && t[|key| + 2..] == rest && t[1..|key| + 1] == key
  {
    PlainKey(key);
    FirstByteIs(key, '"', rest);
    assert ("\"" + key + ("\"" + rest))[1..] == key + ['"'] + rest;
  }

  lemma CommaTells(v: Value, w: Value, comma: bool, other: bool)
    requires ValueText(v) + (if comma then "," else "") == ValueText(w) + (if other then "," else "")
    ensures v == w && comma == other
  {
    hide ValueText;
    LastOfValue(v);
    LastOfValue(w);
    var a, b := ValueText(v), ValueText(w);
    var s, t := a + (if comma then "," else ""), b + (if other then "," else "");
    assert comma <==> s[|s| - 1] == ',';
    assert other <==> t[|t| - 1] == ',';
    assert s[..|a|] == a && t[..|b|] == b;
    ValueInjective(v, w);
  }

  lemma ItemInjective(i: Item, j: Item)
    requires ItemOk(i) && ItemOk(j) && ItemText(i) == ItemText(j)
    ensures i == j
  {
    hide ValueText, FirstByte, Plain;
    match (i, j)
    case (Member(k, v, c), Member(l, w, d)) =>
      var x, y := ValueText(v) + (if c then "," else ""), ValueText(w) + (if d then "," else "");
      MemberText(k, ": " + x);
      MemberText(l, ": " + y);
      assert (": " + x)[2..] == x && (": " + y)[2..] == y;
      CommaTells(v, w, c, d);
    case (Member(k, v, c), Mark(_)) => MemberText(k, ": " + (ValueText(v) + (if c then "," else "")));
    case (Mark(_), Member(k, v, c)) => MemberText(k, ": " + (ValueText(v) + (if c then "," else "")));
    case (Mark(_), Mark(_)) =>
  }

  lemma ItemIsText(i: Item)
    requires ItemOk(i)
    ensures NoControl(ItemText(i))
  {
    hide ValueText;
    if i.Member? {
      PlainKey(i.key);
      LastOfValue(i.value);
    }
  }

  // ----- documents -----

  /** A function as the text spells it: its state is any string, and its records may be missing. */
  datatype Entry = Entry(test: string, planned: int, state: string, stop: string, at: int, atCall: string, records: Option<seq<Record>>)

  datatype Doc = Doc(version: int, scheme: string, display: int, runner: string, functions: Option<seq<Entry>>)

  function RecordItems(r: Record, last: bool): (s: seq<Item>)
    ensures |s| == 10
  {
    [Mark("{"), Member("i", Number(r.index), true), Member("c", Text(r.call), true), Member("h", Text(r.hash), true),
     Member("l", Number(r.length), true), Member("o", Text(r.display), true), Member("p", Flag(r.panicked), true),
     Member("d", Flag(r.unstable), true), Member("t", Flag(r.truncated), false), Mark(if last then "}" else "},")]
  }

  function RecordsItems(rs: seq<Record>): seq<Item>
    requires rs != []
  {
    if |rs| == 1 then RecordItems(rs[0], true) else RecordItems(rs[0], false) + RecordsItems(rs[1..])
  }

  function RecordsMember(rs: Option<seq<Record>>): seq<Item> {
    match rs
    case None => [Member("records", Null, false)]
    case Some(s) => if s == [] then [Member("records", Empty, false)]
                    else [Member("records", Opens, false)] + (RecordsItems(s) + [Mark("]")])
  }

  function EntryHead(e: Entry): (s: seq<Item>)
    ensures |s| == 7
  {
    [Mark("{"), Member("test", Text(e.test), true), Member("planned", Number(e.planned), true), Member("state", Text(e.state), true),
     Member("stop", Text(e.stop), true), Member("at", Number(e.at), true), Member("at_call", Text(e.atCall), true)]
  }

  function EntryItems(e: Entry, last: bool): seq<Item> {
    EntryHead(e) + (RecordsMember(e.records) + [Mark(if last then "}" else "},")])
  }

  function EntriesItems(es: seq<Entry>): seq<Item>
    requires es != []
  {
    if |es| == 1 then EntryItems(es[0], true) else EntryItems(es[0], false) + EntriesItems(es[1..])
  }

  function FunctionsMember(es: Option<seq<Entry>>): seq<Item> {
    match es
    case None => [Member("functions", Null, false)]
    case Some(s) => if s == [] then [Member("functions", Empty, false)]
                    else [Member("functions", Opens, false)] + (EntriesItems(s) + [Mark("]")])
  }

  /** The runner is left out when it is empty. */
  function RunnerMember(runner: string): seq<Item> {
    if runner == "" then [] else [Member("runner", Text(runner), true)]
  }

  function DocHead(d: Doc): (s: seq<Item>)
    ensures |s| == 4
  {
    [Mark("{"), Member("v", Number(d.version), true), Member("scheme", Text(d.scheme), true), Member("display", Number(d.display), true)]
  }

  function DocItems(d: Doc): (s: seq<Item>)
    ensures |s| >= 4
  {
    DocHead(d) + (RunnerMember(d.runner) + (FunctionsMember(d.functions) + [Mark("}")]))
  }

  // ----- the items determine the document -----

  lemma SameFront(a: seq<Item>, x: seq<Item>, b: seq<Item>, y: seq<Item>)
    requires a + x == b + y && |a| == |b|
    ensures a == b && x == y
  {
    assert a == (a + x)[..|a|] && b == (b + y)[..|b|];
    assert x == (a + x)[|a|..] && y == (b + y)[|b|..];
  }

  lemma RecordOfItems(r: Record, s: Record, last: bool, other: bool)
    requires RecordItems(r, last) == RecordItems(s, other)
    ensures r == s && last == other
  {
    var a, b := RecordItems(r, last), RecordItems(s, other);
    assert a[1] == b[1] && a[2] == b[2] && a[3] == b[3] && a[4] == b[4] && a[5] == b[5];
    assert a[6] == b[6] && a[7] == b[7] && a[8] == b[8] && a[9] == b[9];
  }

  lemma {:induction false} RecordsOfItems(a: seq<Record>, b: seq<Record>, x: seq<Item>, y: seq<Item>)
    requires a != [] && b != [] && RecordsItems(a) + x == RecordsItems(b) + y
    ensures a == b && x == y
    decreases |a|
  {
    hide RecordItems;
    var u := if |a| == 1 then x else RecordsItems(a[1..]) + x;
    var v := if |b| == 1 then y else RecordsItems(b[1..]) + y;
    assert RecordsItems(a) + x == RecordItems(a[0], |a| == 1) + u;
    assert RecordsItems(b) + y == RecordItems(b[0], |b| == 1) + v;
    SameFront(RecordItems(a[0], |a| == 1), u, RecordItems(b[0], |b| == 1), v);
    RecordOfItems(a[0], b[0], |a| == 1, |b| == 1);
    if |a| > 1 {
      RecordsOfItems(a[1..], b[1..], x, y);
      assert a == [a[0]] + a[1..] && b == [b[0]] + b[1..];
    }
  }

  lemma RecordsMemberTells(a: Option<seq<Record>>, b: Option<seq<Record>>, x: seq<Item>, y: seq<Item>)
    requires RecordsMember(a) + x == RecordsMember(b) + y
    ensures a == b && x == y
  {
    hide RecordsItems;
    var s, t := RecordsMember(a) + x, RecordsMember(b) + y;
    assert s[0] == RecordsMember(a)[0] && t[0] == RecordsMember(b)[0];
    if a.Some? && a.value != [] {
      RecordsOpen(a.value, x);
      RecordsOpen(b.value, y);
      SameFront([s[0]], RecordsItems(a.value) + ([Mark("]")] + x), [t[0]], RecordsItems(b.value) + ([Mark("]")] + y));
      RecordsOfItems(a.value, b.value, [Mark("]")] + x, [Mark("]")] + y);
      SameFront([Mark("]")], x, [Mark("]")], y);
    } else {
      SameFront(RecordsMember(a), x, RecordsMember(b), y);
    }
  }

  lemma RecordsOpen(rs: seq<Record>, x: seq<Item>)
    requires rs != []
    ensures RecordsMember(Some(rs)) + x == [Member("records", Opens, false)] + (RecordsItems(rs) + ([Mark("]")] + x))
  {
    hide RecordsItems;
  }

  lemma HeadTells(e: Entry, f: Entry)
    requires EntryHead(e) == EntryHead(f)
    ensures e.(records := f.records) == f
  {
    var a, b := EntryHead(e), EntryHead(f);
    assert a[1] == b[1] && a[2] == b[2] && a[3] == b[3] && a[4] == b[4] && a[5] == b[5] && a[6] == b[6];
  }

  lemma EntryTells(e: Entry, f: Entry, last: bool, other: bool, x: seq<Item>, y: seq<Item>)
    requires EntryItems(e, last) + x == EntryItems(f, other) + y
    ensures e == f && last == other && x == y
  {
    hide EntryHead, RecordsMember;
    var c, d := [Mark(if last then "}" else "},")], [Mark(if other then "}" else "},")];
    assert EntryItems(e, last) + x == EntryHead(e) + (RecordsMember(e.records) + (c + x));
    assert EntryItems(f, other) + y == EntryHead(f) + (RecordsMember(f.records) + (d + y));
    SameFront(EntryHead(e), RecordsMember(e.records) + (c + x), EntryHead(f), RecordsMember(f.records) + (d + y));
    HeadTells(e, f);
    RecordsMemberTells(e.records, f.records, c + x, d + y);
    SameFront(c, x, d, y);
    assert c[0] == d[0];
  }

  lemma {:induction false} EntriesTell(a: seq<Entry>, b: seq<Entry>, x: seq<Item>, y: seq<Item>)
    requires a != [] && b != [] && EntriesItems(a) + x == EntriesItems(b) + y
    ensures a == b && x == y
    decreases |a|
  {
    hide EntryItems;
    var u := if |a| == 1 then x else EntriesItems(a[1..]) + x;
    var v := if |b| == 1 then y else EntriesItems(b[1..]) + y;
    assert EntriesItems(a) + x == EntryItems(a[0], |a| == 1) + u;
    assert EntriesItems(b) + y == EntryItems(b[0], |b| == 1) + v;
    EntryTells(a[0], b[0], |a| == 1, |b| == 1, u, v);
    if |a| > 1 {
      EntriesTell(a[1..], b[1..], x, y);
      assert a == [a[0]] + a[1..] && b == [b[0]] + b[1..];
    }
  }

  lemma FunctionsTell(a: Option<seq<Entry>>, b: Option<seq<Entry>>)
    requires FunctionsMember(a) + [Mark("}")] == FunctionsMember(b) + [Mark("}")]
    ensures a == b
  {
    hide EntriesItems;
    var end := [Mark("}")];
    var s, t := FunctionsMember(a) + end, FunctionsMember(b) + end;
    assert s[0] == FunctionsMember(a)[0] && t[0] == FunctionsMember(b)[0];
    if a.Some? && a.value != [] {
      assert s == [Member("functions", Opens, false)] + (EntriesItems(a.value) + ([Mark("]")] + end));
      assert t == [Member("functions", Opens, false)] + (EntriesItems(b.value) + ([Mark("]")] + end));
      SameFront([s[0]], EntriesItems(a.value) + ([Mark("]")] + end), [t[0]], EntriesItems(b.value) + ([Mark("]")] + end));
      EntriesTell(a.value, b.value, [Mark("]")] + end, [Mark("]")] + end);
    }
  }

  lemma DocHeadTells(d: Doc, e: Doc)
    requires DocHead(d) == DocHead(e)
    ensures d.(runner := e.runner, functions := e.functions) == e
  {
    var a, b := DocHead(d), DocHead(e);
    assert a[1] == b[1] && a[2] == b[2] && a[3] == b[3];
  }

  lemma RunnerTells(a: string, b: string, x: seq<Item>, y: seq<Item>)
    requires x != [] && y != [] && RunnerMember(a) + x == RunnerMember(b) + y
    requires x[0].Member? && y[0].Member? && x[0].key != "runner" && y[0].key != "runner"
    ensures a == b && x == y
  {
    var s, t := RunnerMember(a) + x, RunnerMember(b) + y;
    assert s[0] == if a == "" then x[0] else RunnerMember(a)[0];
    assert t[0] == if b == "" then y[0] else RunnerMember(b)[0];
    SameFront(RunnerMember(a), x, RunnerMember(b), y);
  }

  lemma DocTells(d: Doc, e: Doc)
    requires DocItems(d) == DocItems(e)
    ensures d == e
  {
    hide DocHead, RunnerMember, EntriesItems;
    var x, y := FunctionsMember(d.functions) + [Mark("}")], FunctionsMember(e.functions) + [Mark("}")];
    SameFront(DocHead(d), RunnerMember(d.runner) + x, DocHead(e), RunnerMember(e.runner) + y);
    DocHeadTells(d, e);
    RunnerTells(d.runner, e.runner, x, y);
    FunctionsTell(d.functions, e.functions);
  }

  // ----- the text -----

  predicate ItemsOk(items: seq<Item>) {
    forall k :: 0 <= k < |items| ==> ItemOk(items[k])
  }

  lemma {:induction false} RecordsItemsOk(rs: seq<Record>)
    requires rs != []
    ensures ItemsOk(RecordsItems(rs))
    decreases |rs|
  {
    assert ItemsOk(RecordItems(rs[0], |rs| == 1));
    if |rs| > 1 {
      RecordsItemsOk(rs[1..]);
    }
  }

  lemma EntryItemsOk(e: Entry, last: bool)
    ensures ItemsOk(EntryItems(e, last))
  {
    hide RecordsItems;
    assert ItemsOk(EntryHead(e));
    if e.records.Some? && e.records.value != [] {
      RecordsItemsOk(e.records.value);
    }
    assert ItemsOk(RecordsMember(e.records));
  }

  lemma {:induction false} EntriesItemsOk(es: seq<Entry>)
    requires es != []
    ensures ItemsOk(EntriesItems(es))
    decreases |es|
  {
    hide EntryItems, ItemOk;
    EntryItemsOk(es[0], |es| == 1);
    if |es| > 1 {
      EntriesItemsOk(es[1..]);
    }
  }

  lemma DocItemsOk(d: Doc)
    ensures ItemsOk(DocItems(d))
  {
    hide EntriesItems;
    assert ItemsOk(DocHead(d));
    if d.functions.Some? && d.functions.value != [] {
      EntriesItemsOk(d.functions.value);
    }
    assert ItemsOk(FunctionsMember(d.functions));
    assert ItemsOk(RunnerMember(d.runner));
  }

  function Texts(items: seq<Item>): (r: seq<string>)
    ensures |r| == |items| && forall k :: 0 <= k < |r| ==> r[k] == ItemText(items[k])
  {
    seq(|items|, k requires 0 <= k < |items| => ItemText(items[k]))
  }

  /** The lines with a line break between them. */
  function Join(lines: seq<string>): string
    requires lines != []
  {
    if |lines| == 1 then lines[0] else lines[0] + ("\n" + Join(lines[1..]))
  }

  /** encodeStream: json.MarshalIndent with an empty prefix and an empty indent. */
  function Encode(d: Doc): string {
    Join(Texts(DocItems(d)))
  }

  lemma {:induction false} JoinIsPayload(lines: seq<string>)
    requires lines != []
    ensures Wire.Payload(lines) == Join(lines) + "\n"
    decreases |lines|
  {
    if |lines| == 1 {
      assert Wire.Payload(lines[1..]) == "";
    } else {
      JoinIsPayload(lines[1..]);
    }
  }

  lemma LinesOfJoin(lines: seq<string>)
    requires lines != [] && forall k :: 0 <= k < |lines| ==> NoControl(lines[k])
    ensures Wire.Split(Join(lines)) == lines
  {
    Wire.LinesOfPayload(lines);
    JoinIsPayload(lines);
    assert Wire.Payload(lines)[..|Wire.Payload(lines)| - 1] == Join(lines);
  }

  lemma TextsTell(a: seq<Item>, b: seq<Item>)
    requires ItemsOk(a) && ItemsOk(b) && Texts(a) == Texts(b)
    ensures a == b
  {
    hide ItemText, ItemOk;
    assert |a| == |Texts(a)| == |b|;
    forall k | 0 <= k < |a|
      ensures a[k] == b[k]
    {
      assert Texts(a)[k] == Texts(b)[k];
      ItemInjective(a[k], b[k]);
    }
  }

  lemma EncodedLines(d: Doc)
    ensures Wire.Split(Encode(d)) == Texts(DocItems(d))
  {
    hide ItemText, ItemOk, DocItems;
    var items := DocItems(d);
    DocItemsOk(d);
    forall k | 0 <= k < |items|
      ensures NoControl(Texts(items)[k])
    {
      ItemIsText(items[k]);
    }
    LinesOfJoin(Texts(items));
  }

  /** Nothing is lost: different documents have different texts. */
  lemma EncodeInjective(d: Doc, e: Doc)
    requires Encode(d) == Encode(e)
    ensures d == e
  {
    hide Encode, DocItems, ItemOk;
    EncodedLines(d);
    EncodedLines(e);
    DocItemsOk(d);
    DocItemsOk(e);
    TextsTell(DocItems(d), DocItems(e));
    DocTells(d, e);
  }

  // ----- redaction and the text -----

  lemma {:induction false} UrlInOneLine(lines: seq<string>)
    requires lines != []
    ensures HasUrl(Join(lines)) <==> exists k :: 0 <= k < |lines| && HasUrl(lines[k])
    decreases |lines|
  {
    hide HasUrl;
    if |lines| > 1 {
      UrlInOneLine(lines[1..]);
      UrlBesideSpace(lines[0], '\n', Join(lines[1..]));
      assert lines[0] + ("\n" + Join(lines[1..])) == lines[0] + ['\n'] + Join(lines[1..]);
      assert forall k :: 1 <= k < |lines| ==> lines[k] == lines[1..][k - 1];
      if exists k :: 0 <= k < |lines| && HasUrl(lines[k]) {
        var k :| 0 <= k < |lines| && HasUrl(lines[k]);
        assert k > 0 ==> HasUrl(lines[1..][k - 1]);
      }
    }
  }

  lemma UrlInValue(v: Value)
    ensures HasUrl(ValueText(v)) <==> v.Text? && HasUrl(Marshal(v.text))
  {
    hide HasUrl, Marshal;
    match v
    case Text(_) =>
    case Number(n) => WithoutSlash(Itoa(n));
    case _ => WithoutSlash(ValueText(v));
  }

  /** A match in a line lies in the string of that line. */
  lemma UrlInItem(i: Item)
    requires ItemOk(i)
    ensures HasUrl(ItemText(i)) <==> i.Member? && i.value.Text? && HasUrl(Marshal(i.value.text))
  {
    hide HasUrl, ValueText;
    match i
    case Mark(text) => WithoutSlash(text);
    case Member(key, v, comma) =>
      var rest := ValueText(v) + (if comma then "," else "");
      PlainKey(key);
      WithoutSlash("\"" + key + "\":");
      assert ItemText(i) == ("\"" + key + "\":") + [' '] + rest;
      UrlBesideSpace("\"" + key + "\":", ' ', rest);
      UrlBefore(ValueText(v), ',');
      assert !comma ==> rest == ValueText(v);
      UrlInValue(v);
  }

  /** The strings of the document, in order. */
  function Strings(items: seq<Item>): seq<string> {
    if items == [] then []
    else StringOf(items[0]) + Strings(items[1..])
  }

  function StringOf(i: Item): seq<string> {
    if i.Member? && i.value.Text? then [i.value.text] else []
  }

  predicate AllSafe(texts: seq<string>) {
    forall t :: t in texts ==> Fixed(Marshal(t))
  }

  lemma {:induction false} StringsAt(items: seq<Item>, t: string)
    ensures t in Strings(items) <==> exists k :: 0 <= k < |items| && items[k].Member? && items[k].value == Text(t)
    decreases |items|
  {
    if items != [] {
      StringsAt(items[1..], t);
      if exists k :: 0 <= k < |items| && items[k].Member? && items[k].value == Text(t) {
        var k :| 0 <= k < |items| && items[k].Member? && items[k].value == Text(t);
        assert k > 0 ==> items[1..][k - 1] == items[k];
      }
    }
  }

  lemma EncodeFixed(d: Doc)
    ensures Fixed(Encode(d)) <==> AllSafe(Strings(DocItems(d)))
  {
    hide HasUrl, Mask, ItemText, ItemOk, DocItems, Marshal, Contains;
    var items := DocItems(d);
    DocItemsOk(d);
    MaskMarks(Encode(d));
    UrlInOneLine(Texts(items));
    forall k | 0 <= k < |items|
      ensures HasUrl(Texts(items)[k]) <==> items[k].Member? && items[k].value.Text? && HasUrl(Marshal(items[k].value.text))
    {
      UrlInItem(items[k]);
    }
    forall t
      ensures t in Strings(items) <==> exists k :: 0 <= k < |items| && items[k].Member? && items[k].value == Text(t)
      ensures Fixed(Marshal(t)) <==> !HasUrl(Marshal(t))
    {
      StringsAt(items, t);
      MaskMarks(Marshal(t));
    }
    SafeIff(items);
  }

  lemma SafeIff(items: seq<Item>)
    requires forall t :: t in Strings(items) <==> exists k :: 0 <= k < |items| && items[k].Member? && items[k].value == Text(t)
    ensures AllSafe(Strings(items)) <==>
            forall k :: 0 <= k < |items| && items[k].Member? && items[k].value.Text? ==> Fixed(Marshal(items[k].value.text))
  {
    hide Mask, Marshal, Strings;
  }

  // ----- the strings of a document -----

  predicate Safe(t: string) {
    Fixed(Marshal(t))
  }

  predicate RecordSafe(r: Record) {
    Safe(r.call) && Safe(r.hash) && Safe(r.display)
  }

  predicate RecordsSafe(rs: seq<Record>) {
    forall k :: 0 <= k < |rs| ==> RecordSafe(rs[k])
  }

  predicate EntrySafe(e: Entry) {
    && Safe(e.test) && Safe(e.state) && Safe(e.stop) && Safe(e.atCall)
    && (e.records.Some? ==> RecordsSafe(e.records.value))
  }

  predicate EntriesSafe(es: seq<Entry>) {
    forall k :: 0 <= k < |es| ==> EntrySafe(es[k])
  }

  predicate DocSafe(d: Doc) {
    Safe(d.scheme) && (d.runner != "" ==> Safe(d.runner)) && (d.functions.Some? ==> EntriesSafe(d.functions.value))
  }

  lemma {:induction false} SafeJoin(a: seq<Item>, b: seq<Item>)
    ensures AllSafe(Strings(a + b)) <==> AllSafe(Strings(a)) && AllSafe(Strings(b))
  {
    hide Mask, Marshal;
    StringsJoin(a, b);
    assert forall t :: t in Strings(a) + Strings(b) <==> t in Strings(a) || t in Strings(b);
  }

  lemma {:induction false} StringsJoin(a: seq<Item>, b: seq<Item>)
    ensures Strings(a + b) == Strings(a) + Strings(b)
    decreases |a|
  {
    hide StringOf;
    if a == [] {
      assert a + b == b;
    } else {
      StringsJoin(a[1..], b);
      assert (a + b)[1..] == a[1..] + b;
    }
  }

  lemma NoStrings(items: seq<Item>)
    requires forall k :: 0 <= k < |items| ==> items[k].Mark? || !items[k].value.Text?
    ensures Strings(items) == []
  {}

  lemma SafeOne(i: Item)
    ensures AllSafe(Strings([i])) <==> (i.Member? && i.value.Text? ==> Safe(i.value.text))
  {
    hide Mask, Marshal;
    assert [i][1..] == [];
    if i.Member? && i.value.Text? {
      assert Strings([i]) == [i.value.text];
      assert i.value.text in Strings([i]);
    }
  }

  /** Item by item. */
  lemma {:induction false} SafeItems(items: seq<Item>)
    ensures AllSafe(Strings(items)) <==>
            forall k :: 0 <= k < |items| ==> items[k].Member? && items[k].value.Text? ==> Safe(items[k].value.text)
    decreases |items|
  {
    hide Safe, Mask, Marshal;
    if items != [] {
      SafeItems(items[1..]);
      SafeOne(items[0]);
      SafeJoin([items[0]], items[1..]);
      assert [items[0]] + items[1..] == items;
      assert forall k :: 1 <= k < |items| ==> items[k] == items[1..][k - 1];
    }
  }

  lemma RecordItemsSafe(r: Record, last: bool)
    ensures AllSafe(Strings(RecordItems(r, last))) <==> RecordSafe(r)
  {
    hide Safe, AllSafe, Strings;
    var items := RecordItems(r, last);
    SafeItems(items);
    assert items[2].value == Text(r.call) && items[3].value == Text(r.hash) && items[5].value == Text(r.display);
  }

  lemma {:induction false} RecordsItemsSafe(rs: seq<Record>)
    requires rs != []
    ensures AllSafe(Strings(RecordsItems(rs))) <==> RecordsSafe(rs)
    decreases |rs|
  {
    hide RecordSafe, AllSafe, Strings, RecordItems;
    RecordItemsSafe(rs[0], |rs| == 1);
    if |rs| > 1 {
      RecordsItemsSafe(rs[1..]);
      SafeJoin(RecordItems(rs[0], false), RecordsItems(rs[1..]));
      assert forall k :: 1 <= k < |rs| ==> rs[k] == rs[1..][k - 1];
    }
  }

  lemma RecordsMemberSafe(rs: Option<seq<Record>>)
    ensures AllSafe(Strings(RecordsMember(rs))) <==> (rs.Some? ==> RecordsSafe(rs.value))
  {
    hide RecordSafe, AllSafe, RecordsItems;
    hide Strings;
    NoTextSafe([Member("records", Null, false)]);
    NoTextSafe([Member("records", Empty, false)]);
    if rs.Some? && rs.value != [] {
      var opening, closing := [Member("records", Opens, false)], [Mark("]")];
      NoTextSafe(opening);
      NoTextSafe(closing);
      RecordsItemsSafe(rs.value);
      SafeJoin(RecordsItems(rs.value), closing);
      SafeJoin(opening, RecordsItems(rs.value) + closing);
    }
  }

  lemma NoTextSafe(items: seq<Item>)
    requires forall k :: 0 <= k < |items| ==> items[k].Mark? || !items[k].value.Text?
    ensures AllSafe(Strings(items))
  {
    hide Mask, Marshal;
    NoStrings(items);
  }

  lemma EntryHeadSafe(e: Entry)
    ensures AllSafe(Strings(EntryHead(e))) <==> Safe(e.test) && Safe(e.state) && Safe(e.stop) && Safe(e.atCall)
  {
    hide Safe, AllSafe, Strings;
    var items := EntryHead(e);
    SafeItems(items);
    assert items[1].value == Text(e.test) && items[3].value == Text(e.state) && items[4].value == Text(e.stop) && items[6].value == Text(e.atCall);
  }

  lemma EntryItemsSafe(e: Entry, last: bool)
    ensures AllSafe(Strings(EntryItems(e, last))) <==> EntrySafe(e)
  {
    hide Safe, AllSafe, Strings, RecordsSafe, EntryHead, RecordsMember;
    var closing := [Mark(if last then "}" else "},")];
    NoTextSafe(closing);
    EntryHeadSafe(e);
    RecordsMemberSafe(e.records);
    SafeJoin(RecordsMember(e.records), closing);
    SafeJoin(EntryHead(e), RecordsMember(e.records) + closing);
  }

  lemma {:induction false} EntriesItemsSafe(es: seq<Entry>)
    requires es != []
    ensures AllSafe(Strings(EntriesItems(es))) <==> EntriesSafe(es)
    decreases |es|
  {
    hide EntrySafe, AllSafe, Strings, EntryItems;
    EntryItemsSafe(es[0], |es| == 1);
    if |es| > 1 {
      EntriesItemsSafe(es[1..]);
      SafeJoin(EntryItems(es[0], false), EntriesItems(es[1..]));
      assert forall k :: 1 <= k < |es| ==> es[k] == es[1..][k - 1];
    }
  }

  lemma FunctionsMemberSafe(es: Option<seq<Entry>>)
    ensures AllSafe(Strings(FunctionsMember(es))) <==> (es.Some? ==> EntriesSafe(es.value))
  {
    hide EntrySafe, AllSafe, EntriesItems, Strings;
    NoTextSafe([Member("functions", Null, false)]);
    NoTextSafe([Member("functions", Empty, false)]);
    if es.Some? && es.value != [] {
      var opening, closing := [Member("functions", Opens, false)], [Mark("]")];
      NoTextSafe(opening);
      NoTextSafe(closing);
      EntriesItemsSafe(es.value);
      SafeJoin(EntriesItems(es.value), closing);
      SafeJoin(opening, EntriesItems(es.value) + closing);
    }
  }

  lemma DocHeadSafe(d: Doc)
    ensures AllSafe(Strings(DocHead(d))) <==> Safe(d.scheme)
  {
    hide Safe, AllSafe, Strings;
    SafeItems(DocHead(d));
    assert DocHead(d)[2].value == Text(d.scheme);
  }

  lemma RunnerSafe(runner: string)
    ensures AllSafe(Strings(RunnerMember(runner))) <==> (runner != "" ==> Safe(runner))
  {
    hide Safe, AllSafe, Strings;
    SafeItems(RunnerMember(runner));
    if runner != "" {
      assert RunnerMember(runner)[0].value == Text(runner);
    }
  }

  lemma DocItemsSafe(d: Doc)
    ensures AllSafe(Strings(DocItems(d))) <==> DocSafe(d)
  {
    hide Safe, AllSafe, Strings, DocHead, RunnerMember, FunctionsMember, EntriesSafe;
    var closing := [Mark("}")];
    NoTextSafe(closing);
    DocHeadSafe(d);
    RunnerSafe(d.runner);
    FunctionsMemberSafe(d.functions);
    SafeJoin(FunctionsMember(d.functions), closing);
    SafeJoin(RunnerMember(d.runner), FunctionsMember(d.functions) + closing);
    SafeJoin(DocHead(d), RunnerMember(d.runner) + (FunctionsMember(d.functions) + closing));
  }

  /**
   A match of the redaction rule lies inside one string: redaction leaves the whole text as it is
   exactly when it leaves every string of the document, as escaped, as it is.
   */
  lemma EncodeSafe(d: Doc)
    ensures Fixed(Encode(d)) <==> DocSafe(d)
  {
    hide Fixed, AllSafe, DocItems, Encode, DocSafe;
    EncodeFixed(d);
    DocItemsSafe(d);
  }
}

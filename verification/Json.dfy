/** Decimal numbers and JSON strings, printed as the harness prints them and read back as the host reads them. */
module Json {
  import opened Utf8

  datatype Option<+T> = None | Some(value: T) {
    predicate IsFailure() {
      None?
    }

    function PropagateFailure<U>(): Option<U>
      requires None?
    {
      None
    }

    function Extract(): T
      requires Some?
    {
      value
    }
  }

  /** A value read from the front of a text, and the text after it. */
  datatype Scan<+T> = Scan(value: T, rest: string)

  /** No byte below 0x20: such a text holds no line break. */
  predicate NoControl(s: string) {
    forall k :: 0 <= k < |s| ==> s[k] >= ' '
  }

  // ----- decimal numbers (strconv.Itoa) -----

  predicate IsDigit(c: char) {
    '0' <= c <= '9'
  }

  function DigitOf(v: nat): (c: char)
    requires v < 10
    ensures IsDigit(c)
  {
    '0' + v as char
  }

  function Digits(n: nat): (s: string)
    ensures |s| > 0
    ensures forall k :: 0 <= k < |s| ==> IsDigit(s[k])
  {
    if n < 10 then [DigitOf(n)] else Digits(n / 10) + [DigitOf(n % 10)]
  }

  function Itoa(n: int): (s: string)
    ensures NoControl(s) && Ascii(s)
  {
    if n < 0 then "-" + Digits(-n) else Digits(n)
  }

  /** Reads the digits at the front of `s` into `acc`. */
  function ScanDigits(acc: nat, s: string): (r: Scan<nat>)
    ensures |r.rest| <= |s|
    ensures s != [] && IsDigit(s[0]) ==> |r.rest| < |s|
    decreases |s|
  {
    if s == [] || !IsDigit(s[0]) then Scan(acc, s)
    else ScanDigits(10 * acc + (s[0] - '0') as int, s[1..])
  }

  function ScanInt(s: string): (r: Option<Scan<int>>)
    ensures r.Some? ==> |r.value.rest| < |s|
  {
    var negative := s != [] && s[0] == '-';
    var body := if negative then s[1..] else s;
    if body == [] || !IsDigit(body[0]) then None
    else
      var r := ScanDigits(0, body);
      var v: int := if negative then 0 - r.value else r.value;
      Some(Scan(v, r.rest))
  }

  lemma {:induction false} ScanDigitsOfDigits(n: nat, rest: string)
    ensures ScanDigits(0, Digits(n) + rest) == ScanDigits(n, rest)
  {
    if n < 10 {
      assert (Digits(n) + rest)[1..] == rest;
    } else {
      var last := [DigitOf(n % 10)];
      assert Digits(n) + rest == Digits(n / 10) + (last + rest);
      ScanDigitsOfDigits(n / 10, last + rest);
      assert (last + rest)[1..] == rest;
      assert 10 * (n / 10) + n % 10 == n;
    }
  }

  /** Reading back a printed number that no further digit follows. */
  lemma ScanIntOfItoa(n: int, rest: string)
    requires rest == [] || !IsDigit(rest[0])
    ensures ScanInt(Itoa(n) + rest) == Some(Scan(n, rest))
  {
    var m: nat := if n < 0 then -n else n;
    var body := Digits(m) + rest;
    ScanDigitsOfDigits(m, rest);
    assert ScanDigits(m, rest) == Scan(m, rest);
    assert body[0] == Digits(m)[0];
    if n < 0 {
      assert Itoa(n) + rest == "-" + body;
      assert ("-" + body)[1..] == body;
    }
  }

  lemma ItoaInjective(m: int, n: int)
    requires Itoa(m) == Itoa(n)
    ensures m == n
  {
    ScanIntOfItoa(m, "");
    ScanIntOfItoa(n, "");
  }

  /** A number below a power of ten has at most so many digits. */
  lemma {:induction false} DigitsWidth(n: nat, width: nat)
    requires width > 0 && n < Pow10(width)
    ensures |Digits(n)| <= width
  {
    if n >= 10 {
      assert width > 1;
      DigitsWidth(n / 10, width - 1);
    }
  }

  function Pow10(k: nat): (r: nat)
    ensures r > 0
  {
    if k == 0 then 1 else 10 * Pow10(k - 1)
  }

  // ----- JSON strings (jsonQuote; section 7 of RFC 8259) -----

  function HexDigit(v: nat): (c: char)
    requires v < 16
    ensures ' ' < c && c as int < 0x80 && c != '"' && c != '\\'
  {
    if v < 10 then '0' + v as char else 'a' + (v - 10) as char
  }

  function HexValue(c: char): (v: Option<nat>)
    ensures v.Some? ==> v.value < 16
  {
    if '0' <= c <= '9' then Some((c - '0') as int)
    else if 'a' <= c <= 'f' then Some((c - 'a') as int + 10)
    else None
  }

  lemma HexRoundTrip(v: nat)
    requires v < 16
    ensures HexValue(HexDigit(v)) == Some(v)
  {}

  function EscapeByte(c: char): (s: string)
    ensures NoControl(s) && 1 <= |s| <= 6
    ensures c >= ' ' ==> |s| <= 2
    ensures c as int < 0x80 ==> Ascii(s)
  {
    if c == '"' then "\\\""
    else if c == '\\' then "\\\\"
    else if c < ' ' then ['\\', 'u', '0', '0', HexDigit(c as int / 16), HexDigit(c as int % 16)]
    else [c]
  }

  function Escape(s: string): (r: string)
    ensures NoControl(r)
  {
    if s == [] then "" else EscapeByte(s[0]) + Escape(s[1..])
  }

  function Quote(s: string): (r: string)
    ensures NoControl(r)
  {
    "\"" + Escape(s) + "\""
  }

  lemma {:induction false} EscapeSnoc(s: string, c: char)
    ensures Escape(s + [c]) == Escape(s) + EscapeByte(c)
  {
    if s == [] {
      assert s + [c] == [c];
      assert Escape([c]) == EscapeByte(c) + Escape([c][1..]);
    } else {
      assert (s + [c])[0] == s[0] && (s + [c])[1..] == s[1..] + [c];
      EscapeSnoc(s[1..], c);
    }
  }

  lemma EscapeNext(s: string, i: nat)
    requires i < |s|
    ensures Escape(s[..i + 1]) == Escape(s[..i]) + EscapeByte(s[i])
  {
    assert s[..i + 1] == s[..i] + [s[i]];
    EscapeSnoc(s[..i], s[i]);
  }

  /** The builder loop of jsonQuote. */
  method JsonQuote(s: string) returns (b: string)
    ensures b == Quote(s)
  {
    var body := "";
    for i := 0 to |s|
      invariant body == Escape(s[..i])
    {
      EscapeNext(s, i);
      var c := s[i];
      if c == '"' || c == '\\' {
        body := body + ['\\', c];
      } else if c < ' ' {
        body := body + ['\\', 'u', '0', '0', HexDigit(c as int / 16), HexDigit(c as int % 16)];
      } else {
        body := body + [c];
      }
    }
    assert s[..|s|] == s;
    b := "\"" + body + "\"";
  }

  /**
   Reads the body of a JSON string up to its closing quote. An escape that the canonical form
   never uses is refused: the comparison with the canonical form would refuse it anyway.
   */
  function ScanBody(s: string): (r: Option<Scan<string>>)
    ensures r.Some? ==> |r.value.rest| < |s|
    decreases |s|
  {
    if s == [] || s[0] < ' ' then None
    else if s[0] == '"' then Some(Scan("", s[1..]))
    else if s[0] != '\\' then
      var r :- ScanBody(s[1..]);
      Some(Scan([s[0]] + r.value, r.rest))
    else if |s| >= 2 && (s[1] == '"' || s[1] == '\\') then
      var r :- ScanBody(s[2..]);
      Some(Scan([s[1]] + r.value, r.rest))
    else if |s| >= 6 && s[1] == 'u' && s[2] == '0' && s[3] == '0' then
      var high :- HexValue(s[4]);
      var low :- HexValue(s[5]);
      if high >= 2 then None
      else
        var r :- ScanBody(s[6..]);
        Some(Scan([(16 * high + low) as char] + r.value, r.rest))
    else None
  }

  function ScanQuoted(s: string): (r: Option<Scan<string>>)
    ensures r.Some? ==> |r.value.rest| < |s|
  {
    if s == [] || s[0] != '"' then None else ScanBody(s[1..])
  }

  lemma ScanEscapedByte(c: char, tail: string)
    requires ScanBody(tail).Some?
    ensures ScanBody(EscapeByte(c) + tail) == Some(Scan([c] + ScanBody(tail).value.value, ScanBody(tail).value.rest))
  {
    var e := EscapeByte(c);
    var s := e + tail;
    assert s[|e|..] == tail;
    assert forall k :: 0 <= k < |e| ==> s[k] == e[k];
    if c < ' ' && c != '"' && c != '\\' {
      HexRoundTrip(c as int / 16);
      HexRoundTrip(c as int % 16);
      assert 16 * (c as int / 16) + c as int % 16 == c as int;
    }
  }

  lemma {:induction false} ScanBodyOfEscape(s: string, rest: string)
    ensures ScanBody(Escape(s) + "\"" + rest) == Some(Scan(s, rest))
    decreases |s|
  {
    if s == [] {
      assert Escape(s) + "\"" + rest == "\"" + rest;
      assert ("\"" + rest)[1..] == rest;
    } else {
      var tail := Escape(s[1..]) + "\"" + rest;
      ScanBodyOfEscape(s[1..], rest);
      ScanEscapedByte(s[0], tail);
      assert Escape(s) + "\"" + rest == EscapeByte(s[0]) + tail;
      assert [s[0]] + s[1..] == s;
    }
  }

  /** Decoding a quoted string gives the string back and leaves what follows untouched. */
  lemma ScanQuotedOfQuote(s: string, rest: string)
    ensures ScanQuoted(Quote(s) + rest) == Some(Scan(s, rest))
  {
    ScanBodyOfEscape(s, rest);
    assert (Quote(s) + rest)[1..] == Escape(s) + "\"" + rest;
  }

  /** Quoting keeps a text valid UTF-8: no multi-byte sequence holds an escaped byte. */
  lemma {:induction false} EscapeIsValid(s: string)
    requires Valid(s)
    ensures Valid(Escape(s))
    decreases |s|
  {
    if s != [] {
      var n := SequenceLength(s);
      EscapeIsValid(s[n..]);
      EscapeSplit(s, n);
      EscapeSequence(s, n);
      ValidConcat(Escape(s[..n]), Escape(s[n..]));
    }
  }

  lemma EscapeSequence(s: string, n: nat)
    requires n == SequenceLength(s) && n > 0
    ensures Valid(Escape(s[..n]))
  {
    if n == 1 {
      EscapeNext(s, 0);
      assert Escape(s[..1]) == EscapeByte(s[0]);
      AsciiIsValid(EscapeByte(s[0]));
    } else {
      EscapeHigh(s[..n]);
      assert SequenceLength(s[..n]) == n;
      assert s[..n][n..] == [];
    }
  }

  lemma {:induction false} EscapeSplit(s: string, n: nat)
    requires n <= |s|
    ensures Escape(s) == Escape(s[..n]) + Escape(s[n..])
  {
    if n > 0 {
      EscapeSplit(s[1..], n - 1);
      assert s[..n][1..] == s[1..][..n - 1];
      assert s[1..][n - 1..] == s[n..];
    } else {
      assert s[n..] == s;
    }
  }

  lemma {:induction false} EscapeHigh(s: string)
    requires forall k :: 0 <= k < |s| ==> s[k] as int >= 0x80
    ensures Escape(s) == s
    decreases |s|
  {
    if s != [] {
      EscapeHigh(s[1..]);
    }
  }

  lemma QuoteIsValid(s: string)
    requires Valid(s)
    ensures Valid(Quote(s))
  {
    EscapeIsValid(s);
    AsciiIsValid("\"");
    ValidConcat("\"", Escape(s));
    ValidConcat("\"" + Escape(s), "\"");
  }

  /** A text without control bytes at most doubles inside the quotes. */
  lemma {:induction false} EscapeLength(s: string)
    requires NoControl(s)
    ensures |Escape(s)| <= 2 * |s|
    decreases |s|
  {
    if s != [] {
      EscapeLength(s[1..]);
    }
  }
}

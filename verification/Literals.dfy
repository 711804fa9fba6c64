/** String literals of script harnesses, printed so that they evaluate to their text. */
module Literals {
  import opened Json
  import Utf8

  type Rune = n: nat | n < 0x11_0000

  predicate Surrogate(r: Rune) {
    0xD800 <= r <= 0xDFFF
  }

  // ----- WTF-8 -----

  function Byte(n: nat): char
    requires n < 256
  {
    n as char
  }

  /** wtf8: UTF-8, extended to the surrogates. */
  function Wtf8(r: Rune): (s: string)
    ensures 1 <= |s| <= 4
  {
    if r < 0x80 then [Byte(r)]
    else if r < 0x800 then [Byte(0xC0 + r / 64), Byte(0x80 + r % 64)]
    else if r < 0x1_0000 then [Byte(0xE0 + r / 4096), Byte(0x80 + r / 64 % 64), Byte(0x80 + r % 64)]
    else [Byte(0xF0 + r / 262144), Byte(0x80 + r / 4096 % 64), Byte(0x80 + r / 64 % 64), Byte(0x80 + r % 64)]
  }

  const REPLACEMENT: Rune := 0xFFFD

  function Tail(c: char): nat {
    c as int % 64
  }

  /** decodeWTF8: the first code point, a lone surrogate included, and its size. */
  function DecodeWtf8(s: string): (r: (Rune, nat))
    requires s != []
    ensures 1 <= r.1 <= |s|
  {
    var b := s[0] as int;
    if |s| >= 3 && b == 0xED && 0xA0 <= s[1] as int <= 0xBF && Utf8.Continues(s[2]) then
      (0xD000 + Tail(s[1]) * 64 + Tail(s[2]), 3)
    else match Utf8.SequenceLength(s)
         case 1 => (b, 1)
         case 2 => (b % 32 * 64 + Tail(s[1]), 2)
         case 3 => (b % 16 * 4096 + Tail(s[1]) * 64 + Tail(s[2]), 3)
         case 4 => (FourByteRune(b, Tail(s[1]), Tail(s[2]), Tail(s[3])), 4)
         case _ => (REPLACEMENT, 1)
  }

  function FourByteRune(b: int, x: nat, y: nat, z: nat): Rune {
    var n := b % 8 * 262144 + x * 4096 + y * 64 + z;
    if 0 <= n < 0x11_0000 then n else REPLACEMENT
  }

  lemma DecodeTwo(r: Rune, rest: string)
    requires 0x80 <= r < 0x800
    ensures DecodeWtf8(Wtf8(r) + rest) == (r, 2)
  {
    var s := Wtf8(r) + rest;
    TwoParts(r);
    assert s[0] as int == 0xC0 + r / 64 && s[1] as int == 0x80 + r % 64;
    assert Tail(s[1]) == r % 64;
  }

  lemma DecodeThree(r: Rune, rest: string)
    requires 0x800 <= r < 0x1_0000
    ensures DecodeWtf8(Wtf8(r) + rest) == (r, 3)
  {
    var s := Wtf8(r) + rest;
    ThreeParts(r);
    var a, b, c := r / 4096, r / 64 % 64, r % 64;
    assert s[0] as int == 0xE0 + a && s[1] as int == 0x80 + b && s[2] as int == 0x80 + c;
    ThreeBytesDecode(s, a, b, c);
  }

  /** The three bytes of a value below 0x10000 that takes them. */
  lemma ThreeBytesDecode(s: string, a: nat, b: nat, c: nat)
    requires |s| >= 3 && a < 16 && b < 64 && c < 64 && (a == 0 ==> b >= 32)
    requires s[0] as int == 0xE0 + a && s[1] as int == 0x80 + b && s[2] as int == 0x80 + c
    ensures DecodeWtf8(s) == (a * 4096 + b * 64 + c, 3)
  {
    assert Tail(s[1]) == b && Tail(s[2]) == c;
    assert s[0] as int % 16 == a;
  }

  lemma DecodeFour(r: Rune, rest: string)
    requires 0x1_0000 <= r
    ensures DecodeWtf8(Wtf8(r) + rest) == (r, 4)
  {
    var s := Wtf8(r) + rest;
    FourParts(r);
    var a, b, c, d := r / 262144, r / 4096 % 64, r / 64 % 64, r % 64;
    assert s[0] as int == 0xF0 + a && s[1] as int == 0x80 + b && s[2] as int == 0x80 + c && s[3] as int == 0x80 + d;
    FourBytesDecode(s, a, b, c, d);
  }

  lemma FourBytesDecode(s: string, a: nat, b: nat, c: nat, d: nat)
    requires |s| >= 4 && a <= 4 && b < 64 && c < 64 && d < 64 && (a == 0 ==> b >= 16) && (a == 4 ==> b < 16)
    requires s[0] as int == 0xF0 + a && s[1] as int == 0x80 + b && s[2] as int == 0x80 + c && s[3] as int == 0x80 + d
    ensures DecodeWtf8(s) == (a * 262144 + b * 4096 + c * 64 + d, 4)
  {
    assert Tail(s[1]) == b && Tail(s[2]) == c && Tail(s[3]) == d;
    assert s[0] as int % 8 == a;
  }

  /** Decoding inverts encoding, surrogates included. */
  lemma DecodeOfWtf8(r: Rune, rest: string)
    ensures DecodeWtf8(Wtf8(r) + rest) == (r, |Wtf8(r)|)
  {
    if r < 0x80 {
      assert (Wtf8(r) + rest)[0] == Byte(r);
    } else if r < 0x800 {
      DecodeTwo(r, rest);
    } else if r < 0x1_0000 {
      DecodeThree(r, rest);
    } else {
      DecodeFour(r, rest);
    }
  }

  lemma TwoParts(r: nat)
    requires r < 0x800
    ensures r == r / 64 * 64 + r % 64 && r / 64 < 32
  {}

  lemma ThreeParts(r: nat)
    requires r < 0x1_0000
    ensures r == r / 4096 * 4096 + r / 64 % 64 * 64 + r % 64 && r / 4096 < 16
    ensures r >= 0x800 && r / 4096 == 0 ==> r / 64 % 64 >= 32
  {
    assert r / 64 / 64 == r / 4096;
  }

  lemma FourParts(r: nat)
    requires r < 0x11_0000
    ensures r == r / 262144 * 262144 + r / 4096 % 64 * 4096 + r / 64 % 64 * 64 + r % 64 && r / 262144 < 5
    ensures r / 262144 == 4 ==> r / 4096 % 64 < 16
    ensures r >= 0x1_0000 && r / 262144 == 0 ==> r / 4096 % 64 >= 16
  {
    assert r / 64 / 64 == r / 4096 && r / 4096 / 64 == r / 262144;
  }

  function Encode(rs: seq<Rune>): string {
    if rs == [] then "" else Wtf8(rs[0]) + Encode(rs[1..])
  }

  function Decode(s: string): seq<Rune>
    decreases |s|
  {
    if s == [] then [] else [DecodeWtf8(s).0] + Decode(s[DecodeWtf8(s).1..])
  }

  lemma {:induction false} DecodeOfEncode(rs: seq<Rune>)
    ensures Decode(Encode(rs)) == rs
  {
    if rs != [] {
      hide Wtf8, DecodeWtf8;
      DecodeOfWtf8(rs[0], Encode(rs[1..]));
      assert Encode(rs)[|Wtf8(rs[0])|..] == Encode(rs[1..]);
      DecodeOfEncode(rs[1..]);
    }
  }

  lemma {:induction false} EncodeConcat(a: seq<Rune>, b: seq<Rune>)
    ensures Encode(a + b) == Encode(a) + Encode(b)
  {
    hide Wtf8;
    if a == [] {
      assert a + b == b;
    } else {
      EncodeConcat(a[1..], b);
      assert (a + b)[1..] == a[1..] + b;
    }
  }

  // ----- hexadecimal escapes, on code points -----

  function Digit(v: nat): Rune
    requires v < 16
  {
    HexDigit(v) as int
  }

  function DigitValue(r: Rune): Option<nat> {
    if r < 0x80 then HexValue(r as char) else None
  }

  lemma DigitRoundTrip(v: nat)
    requires v < 16
    ensures DigitValue(Digit(v)) == Some(v) && 0x20 < Digit(v) < 0x7F
  {
    HexRoundTrip(v);
  }

  function Pow16(k: nat): (n: nat)
    ensures n > 0
  {
    if k == 0 then 1 else 16 * Pow16(k - 1)
  }

  /** A number in so many hexadecimal digits. */
  function Hex(v: nat, width: nat): (rs: seq<Rune>)
    ensures |rs| == width
  {
    if width == 0 then [] else Hex(v / 16, width - 1) + [Digit(v % 16)]
  }

  function HexRead(rs: seq<Rune>): Option<nat> {
    if rs == [] then Some(0)
    else match (HexRead(rs[..|rs| - 1]), DigitValue(rs[|rs| - 1]))
         case (Some(n), Some(d)) => Some(16 * n + d)
         case _ => None
  }

  lemma {:induction false} HexReadOfHex(v: nat, width: nat)
    requires v < Pow16(width)
    ensures HexRead(Hex(v, width)) == Some(v)
  {
    if width > 0 {
      HexReadOfHex(v / 16, width - 1);
      DigitRoundTrip(v % 16);
      assert Hex(v, width)[..width - 1] == Hex(v / 16, width - 1);
    }
  }

  lemma Powers()
    ensures Pow16(2) == 0x100 && Pow16(4) == 0x1_0000 && Pow16(8) == 0x1_0000_0000
  {
    assert Pow16(3) == 16 * Pow16(2) && Pow16(5) == 16 * Pow16(4) && Pow16(7) == 16 * Pow16(6);
  }

  // ----- the printers -----

  const QUOTE: Rune := 0x22
  const BACKSLASH: Rune := 0x5C
  const SMALL_N: Rune := 0x6E
  const SMALL_R: Rune := 0x72
  const SMALL_T: Rune := 0x74
  const SMALL_U: Rune := 0x75
  const SMALL_X: Rune := 0x78
  const BIG_U: Rune := 0x55

  /** jsUnit. */
  function Unit(u: nat): seq<Rune>
    requires u < 0x1_0000
  {
    [BACKSLASH, SMALL_U] + Hex(u, 4)
  }

  /** The escapes that both printers share, if the code point has one of them. */
  function Short(r: Rune): Option<seq<Rune>> {
    if r == QUOTE then Some([BACKSLASH, QUOTE])
    else if r == BACKSLASH then Some([BACKSLASH, BACKSLASH])
    else if r == 0x0A then Some([BACKSLASH, SMALL_N])
    else if r == 0x0D then Some([BACKSLASH, SMALL_R])
    else if r == 0x09 then Some([BACKSLASH, SMALL_T])
    else if Surrogate(r) then Some(Unit(r))
    else None
  }

  /** Which code points are printed as they are. strconv.IsPrint is a parameter. */
  predicate Plain(r: Rune, isPrint: Rune -> bool) {
    (0x20 <= r < 0x7F || (r >= 0xA0 && isPrint(r))) && Short(r).None?
  }

  /** The UTF-16 code units of a code point. */
  function Units(r: Rune): seq<nat> {
    if r < 0x1_0000 then [r] else [0xD800 + (r - 0x1_0000) / 1024, 0xDC00 + (r - 0x1_0000) % 1024]
  }

  function JsRune(r: Rune, isPrint: Rune -> bool): seq<Rune> {
    match Short(r)
    case Some(text) => text
    case None =>
      if Plain(r, isPrint) then [r]
      else if r > 0xFFFF then Unit(0xD800 + (r - 0x1_0000) / 1024) + Unit(0xDC00 + (r - 0x1_0000) % 1024)
      else Unit(r)
  }

  function PyRune(r: Rune, isPrint: Rune -> bool): seq<Rune> {
    match Short(r)
    case Some(text) => text
    case None =>
      if Plain(r, isPrint) then [r]
      else if r < 0x100 then [BACKSLASH, SMALL_X] + Hex(r, 2)
      else if r > 0xFFFF then [BACKSLASH, BIG_U] + Hex(r, 8)
      else Unit(r)
  }

  function Body(rs: seq<Rune>, rune: Rune -> seq<Rune>): seq<Rune> {
    if rs == [] then [] else rune(rs[0]) + Body(rs[1..], rune)
  }

  function Literal(rs: seq<Rune>, rune: Rune -> seq<Rune>): seq<Rune> {
    [QUOTE] + (Body(rs, rune) + [QUOTE])
  }

  lemma {:induction false} BodySnoc(rs: seq<Rune>, r: Rune, rune: Rune -> seq<Rune>)
    ensures Body(rs + [r], rune) == Body(rs, rune) + rune(r)
  {
    if rs == [] {
      assert [r][1..] == [] && Body([], rune) == [];
      assert rs + [r] == [r];
    } else {
      BodySnoc(rs[1..], r, rune);
      assert (rs + [r])[1..] == rs[1..] + [r];
    }
  }

  lemma {:induction false} DecodeStep(s: string)
    requires s != []
    ensures Decode(s) == [DecodeWtf8(s).0] + Decode(s[DecodeWtf8(s).1..])
  {}

  /** jsString and pyString: a loop over the code points of the text. */
  method Print(s: string, rune: Rune -> seq<Rune>) returns (b: string)
    ensures b == Encode(Literal(Decode(s), rune))
  {
    hide Decode, Encode, DecodeWtf8, Body;
    b := Encode([QUOTE]);
    var i := 0;
    ghost var done: seq<Rune> := [];
    Nothing(rune);
    assert s[0..] == s && [QUOTE] + Body(done, rune) == [QUOTE];
    while i < |s|
      invariant 0 <= i <= |s| && Decode(s) == done + Decode(s[i..])
      invariant b == Encode([QUOTE] + Body(done, rune))
      decreases |s| - i
    {
      var (r, size) := DecodeWtf8(s[i..]);
      DecodeStep(s[i..]);
      assert s[i..][size..] == s[i + size..];
      i := i + size;
      EncodeConcat([QUOTE] + Body(done, rune), rune(r));
      BodySnoc(done, r, rune);
      assert [QUOTE] + Body(done, rune) + rune(r) == [QUOTE] + Body(done + [r], rune);
      b := b + Encode(rune(r));
      done := done + [r];
    }
    assert s[i..] == "" && done + [] == done;
    EncodeConcat([QUOTE] + Body(done, rune), [QUOTE]);
    assert [QUOTE] + Body(done, rune) + [QUOTE] == Literal(done, rune);
    b := b + Encode([QUOTE]);
  }

  lemma Nothing(rune: Rune -> seq<Rune>)
    ensures Body([], rune) == [] && Decode("") == []
  {}

  // ----- the evaluators -----

  /** What the front of a literal's body says, and what is left of it: the code units or code points. */
  datatype Step = Step(said: seq<nat>, rest: seq<Rune>)

  function HexStep(rs: seq<Rune>, width: nat): Option<Step> {
    if |rs| < width then None
    else match HexRead(rs[..width]) case Some(v) => Some(Step([v], rs[width..])) case None => None
  }

  /** One escape or one character, as section 12.9.4 of ECMA-262 (JavaScript) reads the escapes used. */
  function JsStep(rs: seq<Rune>): Option<Step>
    requires rs != []
  {
    if rs[0] != BACKSLASH then (if rs[0] == 0x0A || rs[0] == 0x0D then None else Some(Step(Units(rs[0]), rs[1..])))
    else if |rs| == 1 then None
    else if rs[1] == SMALL_N then Some(Step([0x0A], rs[2..]))
    else if rs[1] == SMALL_R then Some(Step([0x0D], rs[2..]))
    else if rs[1] == SMALL_T then Some(Step([0x09], rs[2..]))
    else if rs[1] == QUOTE || rs[1] == BACKSLASH then Some(Step([rs[1]], rs[2..]))
    else if rs[1] == SMALL_U then HexStep(rs[2..], 4)
    else None
  }

  /** The same for Python, as section 2.4.1 of the Python Language Reference reads them. */
  function PyStep(rs: seq<Rune>): Option<Step>
    requires rs != []
  {
    if rs[0] != BACKSLASH then (if rs[0] == 0x0A || rs[0] == 0x0D then None else Some(Step([rs[0]], rs[1..])))
    else if |rs| == 1 then None
    else if rs[1] == SMALL_N then Some(Step([0x0A], rs[2..]))
    else if rs[1] == SMALL_R then Some(Step([0x0D], rs[2..]))
    else if rs[1] == SMALL_T then Some(Step([0x09], rs[2..]))
    else if rs[1] == QUOTE || rs[1] == BACKSLASH then Some(Step([rs[1]], rs[2..]))
    else if rs[1] == SMALL_X then HexStep(rs[2..], 2)
    else if rs[1] == SMALL_U then HexStep(rs[2..], 4)
    else if rs[1] == BIG_U then HexStep(rs[2..], 8)
    else None
  }

  /** The value of the rest of a literal, up to the closing quote, after which nothing may follow. */
  function Value(rs: seq<Rune>, js: bool): Option<seq<nat>>
    decreases |rs|
  {
    if rs == [] then None
    else if rs[0] == QUOTE then (if |rs| == 1 then Some([]) else None)
    else match if js then JsStep(rs) else PyStep(rs)
         case None => None
         case Some(step) =>
           if |step.rest| >= |rs| then None
           else match Value(step.rest, js) case Some(more) => Some(step.said + more) case None => None
  }

  /** The value of a literal in its file, which is UTF-8. */
  function Evaluate(text: string, js: bool): Option<seq<nat>> {
    var rs := Decode(text);
    if rs == [] || rs[0] != QUOTE then None else Value(rs[1..], js)
  }

  // ----- round trips -----

  lemma HexStepOf(v: nat, width: nat, rest: seq<Rune>)
    requires v < Pow16(width)
    ensures HexStep(Hex(v, width) + rest, width) == Some(Step([v], rest))
  {
    HexReadOfHex(v, width);
    assert (Hex(v, width) + rest)[..width] == Hex(v, width) && (Hex(v, width) + rest)[width..] == rest;
  }

  lemma UnitIs(u: nat, rest: seq<Rune>)
    requires u < 0x1_0000
    ensures JsStep(Unit(u) + rest) == Some(Step([u], rest)) == PyStep(Unit(u) + rest)
    ensures (Unit(u) + rest)[0] == BACKSLASH && |Unit(u)| == 6
  {
    hide Hex, HexStep;
    Powers();
    HexStepOf(u, 4, rest);
    assert (Unit(u) + rest)[2..] == Hex(u, 4) + rest;
  }

  lemma ShortIs(r: Rune, rest: seq<Rune>)
    requires Short(r).Some?
    ensures var text := Short(r).value;
            && JsStep(text + rest) == Some(Step([r], rest)) == PyStep(text + rest)
            && (text + rest)[0] == BACKSLASH && |text| > 0
  {
    hide Unit, HexStep;
    if Surrogate(r) {
      UnitIs(r, rest);
    } else {
      var text := Short(r).value;
      assert |text| == 2 && (text + rest)[2..] == rest && (text + rest)[0] == BACKSLASH && (text + rest)[1] == text[1];
    }
  }

  lemma ValueStep(rs: seq<Rune>, js: bool, said: seq<nat>, rest: seq<Rune>)
    requires rs != [] && rs[0] != QUOTE && |rest| < |rs| && (if js then JsStep(rs) else PyStep(rs)) == Some(Step(said, rest))
    ensures Value(rs, js) == match Value(rest, js) case Some(more) => Some(said + more) case None => None
  {}

  lemma JsRuneValue(r: Rune, isPrint: Rune -> bool, rest: seq<Rune>)
    requires Value(rest, true).Some?
    ensures Value(JsRune(r, isPrint) + rest, true) == Some(Units(r) + Value(rest, true).value)
  {
    hide Value, JsStep, PyStep, Unit;
    var more := Value(rest, true).value;
    if Short(r).Some? {
      ShortIs(r, rest);
      ValueStep(Short(r).value + rest, true, [r], rest);
    } else if Plain(r, isPrint) {
      PlainStep(r, rest);
      ValueStep([r] + rest, true, Units(r), rest);
    } else if r > 0xFFFF {
      var high, low := 0xD800 + (r - 0x1_0000) / 1024, 0xDC00 + (r - 0x1_0000) % 1024;
      UnitIs(low, rest);
      ValueStep(Unit(low) + rest, true, [low], rest);
      UnitIs(high, Unit(low) + rest);
      ValueStep(Unit(high) + (Unit(low) + rest), true, [high], Unit(low) + rest);
      assert Unit(high) + Unit(low) + rest == Unit(high) + (Unit(low) + rest);
      assert [high] + ([low] + more) == Units(r) + more;
    } else {
      UnitIs(r, rest);
      ValueStep(Unit(r) + rest, true, [r], rest);
    }
  }

  lemma PlainStep(r: Rune, rest: seq<Rune>)
    requires Short(r).None?
    ensures JsStep([r] + rest) == Some(Step(Units(r), rest)) && PyStep([r] + rest) == Some(Step([r], rest)) && r != QUOTE
  {
    assert ([r] + rest)[1..] == rest;
  }

  lemma PyRuneValue(r: Rune, isPrint: Rune -> bool, rest: seq<Rune>)
    requires Value(rest, false).Some?
    ensures Value(PyRune(r, isPrint) + rest, false) == Some([r] + Value(rest, false).value)
  {
    hide Value, JsStep, PyStep, Unit, Hex;
    if Short(r).Some? {
      ShortIs(r, rest);
      ValueStep(Short(r).value + rest, false, [r], rest);
    } else if Plain(r, isPrint) {
      PlainStep(r, rest);
      ValueStep([r] + rest, false, [r], rest);
    } else if r < 0x100 {
      PyHex(SMALL_X, r, 2, rest);
      ValueStep([BACKSLASH, SMALL_X] + Hex(r, 2) + rest, false, [r], rest);
    } else if r > 0xFFFF {
      PyHex(BIG_U, r, 8, rest);
      ValueStep([BACKSLASH, BIG_U] + Hex(r, 8) + rest, false, [r], rest);
    } else {
      UnitIs(r, rest);
      ValueStep(Unit(r) + rest, false, [r], rest);
    }
  }

  lemma PyHex(letter: Rune, v: nat, width: nat, rest: seq<Rune>)
    requires (letter == SMALL_X && width == 2 && v < 0x100) || (letter == BIG_U && width == 8 && v < 0x1_0000_0000)
    ensures PyStep([BACKSLASH, letter] + Hex(v, width) + rest) == Some(Step([v], rest))
    ensures ([BACKSLASH, letter] + Hex(v, width) + rest)[0] == BACKSLASH
  {
    hide Hex, HexStep;
    Powers();
    HexStepOf(v, width, rest);
    assert ([BACKSLASH, letter] + Hex(v, width) + rest)[2..] == Hex(v, width) + rest;
  }

  function AllUnits(rs: seq<Rune>): seq<nat> {
    if rs == [] then [] else Units(rs[0]) + AllUnits(rs[1..])
  }

  lemma {:induction false} JsValue(rs: seq<Rune>, isPrint: Rune -> bool)
    ensures Value(Body(rs, r => JsRune(r, isPrint)) + [QUOTE], true) == Some(AllUnits(rs))
  {
    var rune := (r: Rune) => JsRune(r, isPrint);
    if rs == [] {
      assert Body(rs, rune) + [QUOTE] == [QUOTE];
    } else {
      JsValue(rs[1..], isPrint);
      var rest := Body(rs[1..], rune) + [QUOTE];
      JsRuneValue(rs[0], isPrint, rest);
      assert Body(rs, rune) + [QUOTE] == JsRune(rs[0], isPrint) + rest;
    }
  }

  lemma {:induction false} PyValue(rs: seq<Rune>, isPrint: Rune -> bool)
    ensures Value(Body(rs, r => PyRune(r, isPrint)) + [QUOTE], false) == Some(rs)
  {
    var rune := (r: Rune) => PyRune(r, isPrint);
    if rs == [] {
      assert Body(rs, rune) + [QUOTE] == [QUOTE];
    } else {
      PyValue(rs[1..], isPrint);
      var rest := Body(rs[1..], rune) + [QUOTE];
      PyRuneValue(rs[0], isPrint, rest);
      assert [rs[0]] + rs[1..] == rs;
      assert Body(rs, rune) + [QUOTE] == PyRune(rs[0], isPrint) + rest;
    }
  }

  /** Evaluating the JavaScript literal of a text gives its UTF-16 code units, lone surrogates included. */
  lemma JsRoundTrip(rs: seq<Rune>, isPrint: Rune -> bool)
    ensures Evaluate(Encode(Literal(rs, r => JsRune(r, isPrint))), true) == Some(AllUnits(rs))
  {
    hide Value, Decode, Encode;
    var rune := (r: Rune) => JsRune(r, isPrint);
    DecodeOfEncode(Literal(rs, rune));
    JsValue(rs, isPrint);
    assert Literal(rs, rune)[1..] == Body(rs, rune) + [QUOTE];
  }

  /** Evaluating the Python literal of a text gives its code points, lone surrogates included. */
  lemma PyRoundTrip(rs: seq<Rune>, isPrint: Rune -> bool)
    ensures Evaluate(Encode(Literal(rs, r => PyRune(r, isPrint))), false) == Some(rs)
  {
    hide Value, Decode, Encode;
    var rune := (r: Rune) => PyRune(r, isPrint);
    DecodeOfEncode(Literal(rs, rune));
    PyValue(rs, isPrint);
    assert Literal(rs, rune)[1..] == Body(rs, rune) + [QUOTE];
  }

  /** jsString: the literal of a text evaluates to the text's code units. */
  method JsString(s: string, isPrint: Rune -> bool) returns (b: string)
    ensures Evaluate(b, true) == Some(AllUnits(Decode(s)))
  {
    hide Evaluate, Decode, Literal;
    b := Print(s, r => JsRune(r, isPrint));
    JsRoundTrip(Decode(s), isPrint);
  }

  /** pyString: the literal of a text evaluates to the text's code points. */
  method PyString(s: string, isPrint: Rune -> bool) returns (b: string)
    ensures Evaluate(b, false) == Some(Decode(s))
  {
    hide Evaluate, Decode, Literal;
    b := Print(s, r => PyRune(r, isPrint));
    PyRoundTrip(Decode(s), isPrint);
  }

  // ----- the literal in its file -----

  /** What a source line may hold: no control character, and no lone surrogate. */
  predicate OnLine(r: Rune) {
    r >= 0x20 && !Surrogate(r)
  }

  lemma {:induction false} HexOnLine(v: nat, width: nat)
    ensures forall r :: r in Hex(v, width) ==> OnLine(r)
  {
    if width > 0 {
      HexOnLine(v / 16, width - 1);
      DigitRoundTrip(v % 16);
    }
  }

  lemma RuneOnLine(r: Rune, isPrint: Rune -> bool)
    ensures forall x :: x in JsRune(r, isPrint) || x in PyRune(r, isPrint) ==> OnLine(x)
  {
    hide Hex;
    if Surrogate(r) {
      HexOnLine(r, 4);
    } else if r > 0xFFFF {
      HexOnLine(0xD800 + (r - 0x1_0000) / 1024, 4);
      HexOnLine(0xDC00 + (r - 0x1_0000) % 1024, 4);
      HexOnLine(r, 8);
    } else {
      HexOnLine(r, 2);
      HexOnLine(r, 4);
    }
  }

  lemma {:induction false} BodyOnLine(rs: seq<Rune>, rune: Rune -> seq<Rune>)
    requires forall r, x :: x in rune(r) ==> OnLine(x)
    ensures forall x :: x in Literal(rs, rune) ==> OnLine(x)
  {
    if rs != [] {
      BodyOnLine(rs[1..], rune);
      assert forall x :: x in Body(rs[1..], rune) ==> x in Literal(rs[1..], rune);
    }
  }

  lemma {:induction false} OnLineIsText(rs: seq<Rune>)
    requires forall x :: x in rs ==> OnLine(x)
    ensures Utf8.Valid(Encode(rs)) && NoControl(Encode(rs))
  {
    if rs != [] {
      hide Wtf8;
      OnLineIsText(rs[1..]);
      RuneIsText(rs[0]);
      Utf8.ValidConcat(Wtf8(rs[0]), Encode(rs[1..]));
    }
  }

  lemma RuneIsText(r: Rune)
    requires OnLine(r)
    ensures Utf8.Valid(Wtf8(r)) && NoControl(Wtf8(r))
  {
    var s := Wtf8(r);
    if r >= 0x800 {
      if r < 0x1_0000 {
        ThreeParts(r);
      } else {
        FourParts(r);
      }
    }
    assert Utf8.SequenceLength(s) == |s|;
    assert s[|s|..] == "";
  }

  /** Every literal is one line of valid UTF-8, whatever the text. */
  lemma LiteralIsOneLine(rs: seq<Rune>, isPrint: Rune -> bool)
    ensures var js, py := Encode(Literal(rs, r => JsRune(r, isPrint))), Encode(Literal(rs, r => PyRune(r, isPrint)));
            Utf8.Valid(js) && NoControl(js) && Utf8.Valid(py) && NoControl(py)
  {
    hide JsRune, PyRune, Literal, Encode;
    var js, py := (r: Rune) => JsRune(r, isPrint), (r: Rune) => PyRune(r, isPrint);
    forall r, x | x in js(r) || x in py(r)
      ensures OnLine(x)
    {
      RuneOnLine(r, isPrint);
    }
    BodyOnLine(rs, js);
    BodyOnLine(rs, py);
    OnLineIsText(Literal(rs, js));
    OnLineIsText(Literal(rs, py));
  }
}

/** Every run of a rendered harness fits its payload channel, in bytes. */
module Channel {
  import opened Utf8
  import opened Json
  import opened Records
  import opened Wire
  import opened Emitter
  import Automaton
  import opened Capture
  import opened Validator

  const RECORD_OVERHEAD: nat := 160
  const FUNCTION_OVERHEAD: nat := 128
  const SCRIPT_FUNCTION_OVERHEAD: nat := 384
  const FRAME_RESERVE: nat := 256

  function Overhead(runner: Runner): nat {
    if runner.Framed() then SCRIPT_FUNCTION_OVERHEAD else FUNCTION_OVERHEAD
  }

  // ----- the display bound (renderOnce) -----

  /** Integer division of the host: toward zero. */
  function Quotient(a: int, b: int): int
    requires b > 0
  {
    if a >= 0 then a / b else -((-a) / b)
  }

  /** The bytes of the worst-case stream of a harness, frame included. */
  function WorstCase(runner: Runner, tests: nat, records: nat, display: nat): nat {
    records * (RECORD_OVERHEAD + 2 * display) + Overhead(runner) * tests + FRAME_RESERVE
  }

  /** The display bound a harness gets, or None when it is too large for the channel. */
  function DisplayBound(limit: int, runner: Runner, tests: nat, records: nat): (d: Option<nat>)
    requires records > 0
  {
    var usable := limit - FRAME_RESERVE - Overhead(runner) * tests;
    var share := if usable > 0 then Quotient(Quotient(usable, records) - RECORD_OVERHEAD, 2) else 0;
    var display := if share < MAX_DISPLAY_BYTES then share else MAX_DISPLAY_BYTES;
    if display < MIN_DISPLAY_BYTES then None
    else if WorstCase(runner, tests, records, display) > limit then None
    else Some(display)
  }

  lemma ShareFits(usable: int, records: int, display: int)
    requires records > 0 && usable >= 0 && RECORD_OVERHEAD + 2 * display <= usable / records
    ensures records * (RECORD_OVERHEAD + 2 * display) <= usable
  {
    Scale(records, RECORD_OVERHEAD + 2 * display, usable / records);
  }

  lemma Scale(k: int, x: int, y: int)
    requires k >= 0 && x <= y
    ensures k * x <= k * y
  {}

  /**
   A bound of at least 32 bytes is within 32 and 256 and its worst case fits: the check of the
   worst case after the division never refuses anything.
   */
  lemma DisplayBoundFits(limit: int, runner: Runner, tests: nat, records: nat)
    requires records > 0
    ensures var d := DisplayBound(limit, runner, tests, records);
            && (d.Some? ==> MIN_DISPLAY_BYTES <= d.value <= MAX_DISPLAY_BYTES && WorstCase(runner, tests, records, d.value) <= limit)
            && (d.Some? <==> WorstCase(runner, tests, records, MIN_DISPLAY_BYTES) <= limit)
  {
    var usable := limit - FRAME_RESERVE - Overhead(runner) * tests;
    if usable > 0 {
      var quotient := usable / records;
      var share := Quotient(quotient - RECORD_OVERHEAD, 2);
      var display := if share < MAX_DISPLAY_BYTES then share else MAX_DISPLAY_BYTES;
      if display >= MIN_DISPLAY_BYTES {
        ShareFits(usable, records, display);
        Scale(records, RECORD_OVERHEAD + 2 * MIN_DISPLAY_BYTES, RECORD_OVERHEAD + 2 * display);
      } else {
        TooSmall(usable, records, RECORD_OVERHEAD + 2 * MIN_DISPLAY_BYTES);
      }
    }
  }

  /** No larger bound up to 256 bytes would fit. */
  lemma DisplayBoundLargest(limit: int, runner: Runner, tests: nat, records: nat)
    requires records > 0
    ensures var d := DisplayBound(limit, runner, tests, records);
            d.Some? && d.value < MAX_DISPLAY_BYTES ==> WorstCase(runner, tests, records, d.value + 1) > limit
  {
    var usable := limit - FRAME_RESERVE - Overhead(runner) * tests;
    var d := DisplayBound(limit, runner, tests, records);
    if d.Some? && d.value < MAX_DISPLAY_BYTES {
      TooSmall(usable, records, RECORD_OVERHEAD + 2 * (d.value + 1));
    }
  }

  lemma TooSmall(usable: int, records: int, need: int)
    requires records > 0 && usable / records < need
    ensures records * need > usable
  {
    Scale(records, usable / records + 1, need);
  }

  // ----- the bytes of a line -----

  /** Bytes that are copied as they are. */
  predicate Plain(s: string) {
    forall k :: 0 <= k < |s| ==> s[k] >= ' ' && s[k] != '"' && s[k] != '\\'
  }

  lemma {:induction false} PlainEscape(s: string)
    requires Plain(s)
    ensures Escape(s) == s
    decreases |s|
  {
    if s != [] {
      PlainEscape(s[1..]);
    }
  }

  lemma PlainQuote(s: string)
    requires Plain(s)
    ensures |Quote(s)| == |s| + 2
  {
    PlainEscape(s);
  }

  lemma NumberWidth(n: int, width: nat)
    requires width > 0 && 0 <= n < Pow10(width)
    ensures |Itoa(n)| <= width
  {
    DigitsWidth(n, width);
  }

  lemma {:induction false} MembersLength(ms: seq<Member>, widths: seq<nat>)
    requires ms != [] && |widths| == |ms|
    requires forall k :: 0 <= k < |ms| ==> |ms[k].key| == 1 && Plain(ms[k].key) && |RenderValue(ms[k].value)| <= widths[k]
    ensures |RenderMembers(ms)| <= Sum(widths) + 5 * |ms|
    decreases |ms|
  {
    PlainQuote(ms[0].key);
    if |ms| > 1 {
      MembersLength(ms[1..], widths[1..]);
    }
  }

  function Sum(xs: seq<nat>): nat {
    if xs == [] then 0 else xs[0] + Sum(xs[1..])
  }

  lemma SumCons(x: nat, xs: seq<nat>)
    ensures Sum([x] + xs) == x + Sum(xs)
  {
    assert ([x] + xs)[1..] == xs;
  }

  lemma SumFour(a: nat, b: nat, c: nat, d: nat)
    ensures Sum([a, b, c]) == a + b + c && Sum([a, b, c, d]) == a + b + c + d
  {
    hide Sum;
    assert Sum([]) == 0 by {
      SumEmpty();
    }
    SumCons(d, []);
    SumCons(c, [d]);
    SumCons(b, [c, d]);
    SumCons(a, [b, c, d]);
    SumCons(c, []);
    SumCons(b, [c]);
    SumCons(a, [b, c]);
    assert [d] == [d] + [] && [c, d] == [c] + [d] && [b, c, d] == [b] + [c, d] && [a, b, c, d] == [a] + [b, c, d];
    assert [c] == [c] + [] && [b, c] == [b] + [c] && [a, b, c] == [a] + [b, c];
  }

  lemma SumEmpty()
    ensures Sum([]) == 0
  {}

  lemma {:induction false} SumConcat(xs: seq<nat>, ys: seq<nat>)
    ensures Sum(xs + ys) == Sum(xs) + Sum(ys)
    decreases |xs|
  {
    if xs == [] {
      assert xs + ys == ys;
    } else {
      assert (xs + ys)[1..] == xs[1..] + ys;
      SumConcat(xs[1..], ys);
    }
  }

  /** An observation takes at most 160 bytes besides its display, which may double. */
  lemma SeenLength(f: int, i: int, o: Obs, display: nat)
    requires 1 <= f < 100 && 0 <= i < 10000 && Shaped(display, o) && Escapes(display, o.shown)
    ensures |Canon(Seen(f, i, o))| + 1 <= RECORD_OVERHEAD + 2 * display
  {
    hide RenderMembers, Quote, Itoa, Escape, Sum;
    var shown := 2 + 2 * display;
    var widths := [2, 5, 4] + ([66, 5, shown] + [5, 5, 5]);
    SumFour(2, 5, 4, 0);
    SumFour(66, 5, shown, 0);
    SumFour(5, 5, 5, 0);
    SumConcat([66, 5, shown], [5, 5, 5]);
    SumConcat([2, 5, 4], [66, 5, shown] + [5, 5, 5]);
    NumbersOf(f, i, o.length);
    PlainQuote("obs");
    PlainQuote(o.hash);
    QuoteLength(display, o.shown);
    MembersLength(Fields(Seen(f, i, o)), widths);
  }

  lemma NumbersOf(f: int, n: int, length: int)
    requires 1 <= f < 100 && 0 <= n < 10000 && 0 <= length < 100000
    ensures |Itoa(f)| <= 2 && |Itoa(n)| <= 4 && |Itoa(length)| <= 5
  {
    assert Pow10(2) == 100 && Pow10(4) == 10000 && Pow10(5) == 100000;
    NumberWidth(f, 2);
    NumberWidth(n, 4);
    NumberWidth(length, 5);
  }

  /** The longest suffix and test name. */
  const SUFFIX_BYTES: nat := 32
  const NAME_BYTES: nat := 51

  predicate FrameWords(suffix: string, name: string) {
    |suffix| <= SUFFIX_BYTES && |name| <= NAME_BYTES && Plain(suffix) && Plain(name)
  }

  /** The bytes of the other records, line break included. */
  function OtherBound(l: Line): nat {
    match l
    case Begin(_, _) => 34
    case End(_, _) => 32
    case Stop(_, _, _) => 52
    case Head(_, _, _) => 124
    case Done(_, _, _) => 94
    case Seen(_, _, _) => 0
  }

  lemma OtherLength(l: Line)
    requires !l.Seen? && 1 <= l.f < 100
    requires l.Begin? || l.End? || l.Done? ==> 0 <= l.n < 10000
    requires l.Stop? ==> 0 <= l.i < 10000 && |l.reason| <= 8 && Plain(l.reason)
    requires l.Head? ==> FrameWords(l.suffix, l.test)
    requires l.Done? ==> FrameWords("", l.test)
    ensures |Canon(l)| + 1 <= OtherBound(l)
  {
    hide RenderMembers, Quote, Itoa, Escape, Sum;
    match l {
      case Begin(f, n) => ThreeMembers(l, f, n, "begin", 7);
      case End(f, n) => ThreeMembers(l, f, n, "end", 5);
      case Stop(f, i, x) =>
        NumbersOf(f, i, 0);
        PlainQuote("stop");
        PlainQuote(x);
        SumFour(2, 6, 4, 10);
        MembersLength(Fields(l), [2, 6, 4, 10]);
      case Head(f, suffix, test) =>
        NumbersOf(f, 0, 0);
        PlainQuote("head");
        PlainQuote(suffix);
        PlainQuote(test);
        SumFour(2, 6, 34, 53);
        MembersLength(Fields(l), [2, 6, 34, 53]);
      case Done(f, test, n) =>
        NumbersOf(f, n, 0);
        PlainQuote("done");
        PlainQuote(test);
        SumFour(2, 6, 53, 4);
        MembersLength(Fields(l), [2, 6, 53, 4]);
    }
  }

  lemma ThreeMembers(l: Line, f: int, n: int, kind: string, width: nat)
    requires (l == Begin(f, n) && kind == "begin") || (l == End(f, n) && kind == "end")
    requires 1 <= f < 100 && 0 <= n < 10000 && Plain(kind) && width == |kind| + 2
    ensures |Canon(l)| <= 2 + width + 4 + 16
  {
    hide RenderMembers, Quote, Itoa, Escape, Sum;
    NumbersOf(f, n, 0);
    PlainQuote(kind);
    SumFour(2, width, 4, 0);
    MembersLength(Fields(l), [2, width, 4]);
  }

  /** The bytes that escaping adds to a text. */
  function Marks(s: string): nat {
    if s == [] then 0
    else (if s[0] == '"' || s[0] == '\\' then 1 else if s[0] < ' ' then 5 else 0) + Marks(s[1..])
  }

  /** The exact length of an escaped text. */
  lemma {:induction false} EscapeExactLength(s: string)
    ensures |Escape(s)| == |s| + Marks(s)
    decreases |s|
  {
    if s != [] {
      EscapeExactLength(s[1..]);
    }
  }

  /** Escaping makes the text at most twice as long as a display may be. */
  predicate Escapes(display: nat, s: string) {
    |s| + Marks(s) <= 2 * display
  }

  /** Every display without control bytes does; so does one with few of them. */
  lemma EscapesPlain(display: nat, s: string)
    requires NoControl(s) && |s| <= display
    ensures Escapes(display, s)
  {
    EscapeLength(s);
    EscapeExactLength(s);
  }

  lemma QuoteLength(display: nat, s: string)
    requires Escapes(display, s)
    ensures |Quote(s)| <= 2 + 2 * display
  {
    EscapeExactLength(s);
  }

  // ----- the bytes of a run -----

  /** The display of an observation escapes to at most twice the bound: the encoders quote every string they print. */
  predicate Printable(h: Harness, r: CallResult) {
    r.Observed? ==> Escapes(h.display, r.obs.shown)
  }

  function Bytes(ls: seq<Line>): nat {
    |File(ls)|
  }

  lemma {:induction false} BytesConcat(a: seq<Line>, b: seq<Line>)
    ensures Bytes(a + b) == Bytes(a) + Bytes(b)
    decreases |a|
  {
    hide Canon;
    if a == [] {
      assert a + b == b;
    } else {
      BytesConcat(a[1..], b);
      assert Canons(a + b)[1..] == Canons(a[1..] + b) by {
        assert (a + b)[1..] == a[1..] + b;
      }
      assert Canons(a)[1..] == Canons(a[1..]);
    }
  }

  lemma BytesOne(l: Line)
    ensures Bytes([l]) == |Canon(l)| + 1
  {
    hide Canon;
    assert Canons([l]) == [Canon(l)];
    assert [Canon(l)][1..] == [];
    assert Payload([]) == "";
  }

  lemma ReasonShort(how: CallState)
    ensures |Reason(how)| <= 8 && Plain(Reason(how)) && |POISONED| <= 8 && Plain(POISONED)
  {}

  lemma ResultBytes(h: Harness, f: int, k: nat, r: CallResult)
    requires 1 <= f < 100 && k < 10000 && Producible(h, r) && Printable(h, r)
    ensures Bytes([ResultLine(f, k, r)]) <= if r.Observed? then RECORD_OVERHEAD + 2 * h.display else 52
  {
    hide Canon, Bytes;
    BytesOne(ResultLine(f, k, r));
    match r {
      case Observed(o) => SeenLength(f, k, o, h.display);
      case Broke(how) =>
        ReasonShort(how);
        OtherLength(Stop(f, k, Reason(how)));
    }
  }

  lemma {:induction false} InputBytes(h: Harness, f: int, k: nat, rs: seq<CallResult>)
    requires 1 <= f < 100 && k + |rs| < 10000 && ResultsFit(h, rs, |rs|) && forall j :: 0 <= j < |rs| ==> Printable(h, rs[j])
    ensures Bytes(InputLines(f, k, rs)) <= |rs| * (RECORD_OVERHEAD + 2 * h.display) + 52
    decreases |rs|
  {
    hide Canon, Bytes;
    if rs == [] {
      BytesOne(End(f, k));
      OtherLength(End(f, k));
    } else {
      assert Producible(h, rs[0]) && Printable(h, rs[0]);
      ResultBytes(h, f, k, rs[0]);
      if rs[0].Observed? {
        InputBytes(h, f, k + 1, rs[1..]);
        BytesConcat([ResultLine(f, k, rs[0])], InputLines(f, k + 1, rs[1..]));
        Distribute(|rs| - 1, RECORD_OVERHEAD + 2 * h.display);
      } else {
        assert InputLines(f, k, rs) == [ResultLine(f, k, rs[0])];
        Distribute(|rs| - 1, RECORD_OVERHEAD + 2 * h.display);
      }
    }
  }

  lemma Distribute(n: nat, x: nat)
    ensures (n + 1) * x == n * x + x && n * x >= 0
  {}

  /** The words of a harness, as Proper gives them. */
  lemma ProperWords(h: Harness, f: int)
    requires Proper(h) && h.Has(f)
    ensures FrameWords(h.suffix, h.Name(f)) && FrameWords("", h.Name(f))
    ensures 1 <= h.Planned(f) <= MAX_PACKAGE_INPUTS && f <= MAX_HARNESS_TESTS
  {
    hide IsTestName;
    ProperName(h, f);
    NameWords(h.runner, h.suffix, f);
  }

  lemma NameWords(runner: Runner, suffix: string, number: nat)
    requires IsSuffix(suffix) && 1 <= number <= MAX_HARNESS_TESTS
    ensures FrameWords(suffix, TestName(runner, suffix, number)) && FrameWords("", TestName(runner, suffix, number))
  {
    hide Itoa, Digits;
    NumbersOf(number, 0, 0);
    ItoaPlain(number);
    PlainConcat("_", Itoa(number));
    PlainConcat(suffix, "_" + Itoa(number));
    PlainConcat(Prefix(runner), suffix + ("_" + Itoa(number)));
  }

  lemma PlainConcat(a: string, b: string)
    requires Plain(a) && Plain(b)
    ensures Plain(a + b)
  {}

  lemma ItoaPlain(n: nat)
    ensures Plain(Itoa(n))
  {}

  lemma TestBytes(h: Harness, f: int, poisoned: bool, rs: seq<CallResult>)
    requires Proper(h) && h.Has(f) && ResultsFit(h, rs, h.Planned(f)) && forall j :: 0 <= j < |rs| ==> Printable(h, rs[j])
    ensures Bytes(TestLines(h, f, poisoned, rs)) <= h.Planned(f) * (RECORD_OVERHEAD + 2 * h.display) + Overhead(h.runner)
  {
    hide Canon, Bytes, InputLines, IsTestName;
    ProperWords(h, f);
    ReasonShort(Aborted);
    var observed := Observations(poisoned, rs);
    var opening, body, closing := OpenLines(h, f), BodyLines(f, 0, poisoned, rs), DoneLines(h, f, observed);
    BytesConcat(opening + body, closing);
    BytesConcat(opening, body);
    BodyBytes(h, f, poisoned, rs);
    FrameBytes(h, f, observed);
  }

  lemma BodyBytes(h: Harness, f: int, poisoned: bool, rs: seq<CallResult>)
    requires Proper(h) && h.Has(f) && ResultsFit(h, rs, h.Planned(f)) && forall j :: 0 <= j < |rs| ==> Printable(h, rs[j])
    requires 1 <= f <= MAX_HARNESS_TESTS && h.Planned(f) <= MAX_PACKAGE_INPUTS
    ensures Bytes(BodyLines(f, 0, poisoned, rs)) <= h.Planned(f) * (RECORD_OVERHEAD + 2 * h.display) + 52
  {
    hide Canon, Bytes, InputLines, Proper;
    if poisoned {
      ReasonShort(Aborted);
      BytesOne(Stop(f, 0, POISONED));
      OtherLength(Stop(f, 0, POISONED));
      Scale(h.Planned(f), 0, RECORD_OVERHEAD + 2 * h.display);
    } else {
      InputBytes(h, f, 0, rs);
    }
  }

  lemma FrameBytes(h: Harness, f: int, observed: nat)
    requires h.Has(f) && 1 <= f <= MAX_HARNESS_TESTS && observed <= h.Planned(f) <= MAX_PACKAGE_INPUTS
    requires FrameWords(h.suffix, h.Name(f)) && FrameWords("", h.Name(f))
    ensures Bytes(OpenLines(h, f)) + Bytes(DoneLines(h, f, observed)) + 52 <= Overhead(h.runner)
  {
    hide Canon, Bytes;
    var begin := Begin(f, h.Planned(f));
    BytesOne(begin);
    OtherLength(begin);
    if h.runner.Framed() {
      var head, done := Head(f, h.suffix, h.Name(f)), Done(f, h.Name(f), observed);
      BytesOne(head);
      OtherLength(head);
      BytesOne(done);
      OtherLength(done);
      BytesConcat([head], [begin]);
    } else {
      assert OpenLines(h, f) == [begin];
      BytesNone();
    }
  }

  lemma BytesNone()
    ensures Bytes([]) == 0
  {}

  lemma {:induction false} RunBytes(h: Harness, f: int, poisoned: bool, runs: seq<seq<CallResult>>)
    requires Proper(h) && RunsFit(h, f, runs)
    requires forall k, j :: 0 <= k < |runs| && 0 <= j < |runs[k]| ==> Printable(h, runs[k][j])
    ensures Bytes(RunLines(h, f, poisoned, runs)) <=
            Inputs(h.tests[f - 1..]) * (RECORD_OVERHEAD + 2 * h.display) + Overhead(h.runner) * |runs|
    decreases |runs|
  {
    hide Canon, Bytes, TestLines, Proper;
    if runs == [] {
      BytesNone();
    } else {
      Automaton.RunsTail(h, f, runs);
      TestBytes(h, f, poisoned, runs[0]);
      forall k, j | 0 <= k < |runs[1..]| && 0 <= j < |runs[1..][k]| ensures Printable(h, runs[1..][k][j]) {
        assert Printable(h, runs[k + 1][j]);
      }
      RunBytes(h, f + 1, Poisons(poisoned, runs[0]), runs[1..]);
      BytesConcat(TestLines(h, f, poisoned, runs[0]), RunLines(h, f + 1, Poisons(poisoned, runs[0]), runs[1..]));
      assert h.tests[f - 1..][1..] == h.tests[f..];
      AddScaled(h.Planned(f), Inputs(h.tests[f..]), RECORD_OVERHEAD + 2 * h.display);
      Distribute(|runs| - 1, Overhead(h.runner));
    }
  }

  lemma AddScaled(a: nat, b: nat, x: nat)
    ensures (a + b) * x == a * x + b * x
  {}

  /**
   The stream fits its channel: a harness rendered with the display bound of its inputs writes
   at most the payload limit less the frame, in every run of every behaviour of the code.
   */
  lemma StreamFits(h: Harness, limit: int, runs: seq<seq<CallResult>>)
    requires Proper(h) && RunsFit(h, 1, runs)
    requires forall k, j :: 0 <= k < |runs| && 0 <= j < |runs[k]| ==> Printable(h, runs[k][j])
    requires Inputs(h.tests) > 0 && DisplayBound(limit, h.runner, |h.tests|, Inputs(h.tests)) == Some(h.display)
    ensures |File(RunLines(h, 1, false, runs))| + FRAME_RESERVE <= limit
  {
    hide RunLines, File, Proper;
    RunBytes(h, 1, false, runs);
    assert h.tests[0..] == h.tests;
    DisplayBoundFits(limit, h.runner, |h.tests|, Inputs(h.tests));
  }
}

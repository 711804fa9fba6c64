/**
 The second acceptor: the checks that every stored stream must pass again, and that every normalized
 stream passes.
 */
module Validator {
  import opened Utf8
  import opened Json
  import opened Records
  import opened Emitter
  import opened Automaton
  import opened Language
  import opened Normalizer
  import opened Capture

  // ----- test names -----

  const GO_TEST_PREFIX := "TestProbeFuzz_"
  const PYTHON_TEST_PREFIX := "test_probe_fuzz_"

  function Prefix(runner: Runner): string {
    if runner.Pytest? then PYTHON_TEST_PREFIX else GO_TEST_PREFIX
  }

  /** The per-run suffix: 8 to 32 lowercase hexadecimal digits. */
  predicate IsSuffix(s: string) {
    8 <= |s| <= 32 && LowerHex(s)
  }

  /** The number of a test: [1-9][0-9]?. */
  predicate IsTestNumber(s: string) {
    1 <= |s| <= 2 && '1' <= s[0] <= '9' && (|s| == 2 ==> IsDigit(s[1]))
  }

  function HexRun(s: string): (n: nat)
    ensures n <= |s|
    decreases |s|
  {
    if s == [] || !('0' <= s[0] <= '9' || 'a' <= s[0] <= 'f') then 0 else 1 + HexRun(s[1..])
  }

  /** testNamePattern, and pythonTestNamePattern for a Python harness. */
  predicate IsTestName(runner: Runner, name: string) {
    Prefix(runner) <= name &&
    var rest := name[|Prefix(runner)|..];
    var n := HexRun(rest);
    8 <= n <= 32 && n < |rest| && rest[n] == '_' && IsTestNumber(rest[n + 1..])
  }

  function TestName(runner: Runner, suffix: string, number: nat): string {
    Prefix(runner) + (suffix + ("_" + Itoa(number)))
  }

  lemma {:induction false} HexRunOfSuffix(suffix: string, rest: string)
    requires LowerHex(suffix) && (rest == [] || !('0' <= rest[0] <= '9' || 'a' <= rest[0] <= 'f'))
    ensures HexRun(suffix + rest) == |suffix|
    decreases |suffix|
  {
    if suffix == [] {
      assert suffix + rest == rest;
    } else {
      assert (suffix + rest)[1..] == suffix[1..] + rest;
      HexRunOfSuffix(suffix[1..], rest);
    }
  }

  lemma TestNumberOfItoa(number: nat)
    requires 1 <= number <= 99
    ensures IsTestNumber(Itoa(number))
  {
    if number >= 10 {
      assert Digits(number) == Digits(number / 10) + [DigitOf(number % 10)];
      assert Digits(number / 10) == [DigitOf(number / 10)];
    }
  }

  /** The names Render gives match the pattern and differ from each other. */
  lemma TestNames(runner: Runner, suffix: string, number: nat, other: nat)
    requires IsSuffix(suffix) && 1 <= number <= 99
    ensures IsTestName(runner, TestName(runner, suffix, number))
    ensures TestName(runner, suffix, number) == TestName(runner, suffix, other) ==> number == other
  {
    hide Itoa, Prefix, IsTestName, IsTestNumber;
    TestNumberOfItoa(number);
    NameMatches(Prefix(runner), runner, suffix, Itoa(number));
    NamesDiffer(runner, suffix, number, other);
  }

  lemma NameMatches(front: string, runner: Runner, suffix: string, number: string)
    requires IsSuffix(suffix) && IsTestNumber(number) && front == Prefix(runner)
    ensures IsTestName(runner, front + (suffix + ("_" + number)))
  {
    hide IsTestNumber, Prefix, LowerHex;
    var rest := suffix + ("_" + number);
    assert (front + rest)[|front|..] == rest;
    HexRunOfSuffix(suffix, "_" + number);
    assert rest[|suffix|] == '_' && rest[|suffix| + 1..] == number;
  }

  lemma NamesDiffer(runner: Runner, suffix: string, number: nat, other: nat)
    ensures TestName(runner, suffix, number) == TestName(runner, suffix, other) ==> number == other
  {
    hide Itoa, Prefix;
    if TestName(runner, suffix, number) == TestName(runner, suffix, other) {
      EndsEqual(Prefix(runner) + suffix + "_", Itoa(number), Itoa(other));
      assert TestName(runner, suffix, number) == Prefix(runner) + suffix + "_" + Itoa(number);
      assert TestName(runner, suffix, other) == Prefix(runner) + suffix + "_" + Itoa(other);
      ItoaInjective(number, other);
    }
  }

  lemma EndsEqual(front: string, a: string, b: string)
    ensures front + a == front + b ==> a == b
  {
    if front + a == front + b {
      assert (front + a)[|front|..] == a && (front + b)[|front|..] == b;
    }
  }

  // ----- the checks -----

  predicate RecordOk(display: nat, i: nat, r: Record) {
    && r.index == i && r.call != "" && IsHash(r.hash) && 0 <= r.length <= MAX_ENCODING_BYTES
    && |r.display| <= display && Valid(r.display) && Valid(r.call)
  }

  predicate StopOk(runner: Runner, timedOut: bool, n: nat, reason: string) {
    if reason == POISONED then timedOut && n == 0
    else !timedOut && (reason == TIMEOUT || reason == ABORT || (reason == GOEXIT && !runner.Framed()))
  }

  /** State, stop reason and position agree with the number of records. */
  predicate StateOk(runner: Runner, timedOut: bool, f: FunctionStream) {
    var n := |f.records|;
    match f.state
    case Complete => n == f.planned && f.stop == "" && f.at == -1 && f.atCall == "" && !timedOut
    case Stopped => f.at == n && f.at < f.planned && f.atCall != "" && StopOk(runner, timedOut, n, f.stop)
    case Interrupted => f.stop == "" && f.at == n && (f.at < f.planned <==> f.atCall != "") && (timedOut ==> n == 0)
    case NotStarted => n == 0 && f.stop == "" && f.at == -1 && f.atCall == ""
    case Reading => false
  }

  predicate FunctionOk(display: nat, runner: Runner, timedOut: bool, f: FunctionStream) {
    && IsTestName(runner, f.test)
    && 1 <= f.planned <= MAX_PACKAGE_INPUTS && |f.records| <= f.planned
    && (forall i :: 0 <= i < |f.records| ==> RecordOk(display, i, f.records[i]))
    && StateOk(runner, timedOut, f)
  }

  predicate TimesOut(timedOut: bool, f: FunctionStream) {
    timedOut || (f.state.Stopped? && f.stop == TIMEOUT)
  }

  predicate EndsProcess(ended: bool, f: FunctionStream) {
    ended || f.state.Interrupted? || f.state.NotStarted?
  }

  /** The functions in order: nothing begins after the process ended. */
  predicate FunctionsOk(display: nat, runner: Runner, ended: bool, timedOut: bool, fs: seq<FunctionStream>)
    decreases |fs|
  {
    fs != [] ==>
    && FunctionOk(display, runner, timedOut, fs[0])
    && (ended ==> fs[0].state.NotStarted?)
    && FunctionsOk(display, runner, EndsProcess(ended, fs[0]), TimesOut(timedOut, fs[0]), fs[1..])
  }

  function Total(fs: seq<FunctionStream>): int
    decreases |fs|
  {
    if fs == [] then 0 else fs[0].planned + Total(fs[1..])
  }

  predicate Distinct(fs: seq<FunctionStream>) {
    forall i, j :: 0 <= i < j < |fs| ==> fs[i].test != fs[j].test
  }

  /** Stream.validate. */
  predicate Validates(s: Stream) {
    && MIN_DISPLAY_BYTES <= s.display <= MAX_DISPLAY_BYTES
    && 1 <= |s.functions| <= MAX_HARNESS_TESTS
    && Distinct(s.functions)
    && FunctionsOk(s.display, s.runner, false, false, s.functions)
    && Total(s.functions) <= MAX_PACKAGE_INPUTS
  }

  lemma FunctionsOkNext(display: nat, runner: Runner, ended: bool, timedOut: bool, fs: seq<FunctionStream>, k: nat)
    requires k < |fs|
    ensures FunctionsOk(display, runner, ended, timedOut, fs[k..]) <==>
            && FunctionOk(display, runner, timedOut, fs[k]) && (ended ==> fs[k].state.NotStarted?)
            && FunctionsOk(display, runner, EndsProcess(ended, fs[k]), TimesOut(timedOut, fs[k]), fs[k + 1..])
    ensures Total(fs[k..]) == fs[k].planned + Total(fs[k + 1..])
  {
    assert fs[k..][0] == fs[k] && fs[k..][1..] == fs[k + 1..];
  }

  lemma NoneLeft(display: nat, runner: Runner, fs: seq<FunctionStream>)
    ensures Total(fs[|fs|..]) == 0
    ensures forall ended, timedOut :: FunctionsOk(display, runner, ended, timedOut, fs[|fs|..])
  {}

  method ValidateRecords(display: nat, f: FunctionStream) returns (ok: bool)
    ensures ok <==> forall i :: 0 <= i < |f.records| ==> RecordOk(display, i, f.records[i])
  {
    for i := 0 to |f.records|
      invariant forall k :: 0 <= k < i ==> RecordOk(display, k, f.records[k])
    {
      var r := f.records[i];
      if r.index != i || r.call == "" || !IsHash(r.hash) || r.length < 0 || r.length > MAX_ENCODING_BYTES
         || |r.display| > display || !Valid(r.display) || !Valid(r.call)
      {
        return false;
      }
    }
    return true;
  }

  /** The loop over the functions, with the names seen, the total, and the two flags it carries. */
  method Validate(s: Stream) returns (ok: bool)
    ensures ok <==> Validates(s)
  {
    hide FunctionsOk, Total, IsTestName, StateOk, RecordOk, TimesOut, EndsProcess;
    var fs := s.functions;
    NoneLeft(s.display, s.runner, fs);
    if s.display < MIN_DISPLAY_BYTES || s.display > MAX_DISPLAY_BYTES || |fs| == 0 || |fs| > MAX_HARNESS_TESTS {
      return false;
    }
    var seen: set<string> := {};
    var total, ended, timedOut := 0, false, false;
    assert fs[0..] == fs;
    for k := 0 to |fs|
      invariant seen == set j | 0 <= j < k :: fs[j].test
      invariant forall i, j :: 0 <= i < j < k ==> fs[i].test != fs[j].test
      invariant Total(fs) == total + Total(fs[k..])
      invariant FunctionsOk(s.display, s.runner, false, false, fs) <==> FunctionsOk(s.display, s.runner, ended, timedOut, fs[k..])
    {
      var f := fs[k];
      FunctionsOkNext(s.display, s.runner, ended, timedOut, fs, k);
      if !IsTestName(s.runner, f.test) || f.test in seen {
        return false;
      }
      seen := seen + {f.test};
      if f.planned < 1 || f.planned > MAX_PACKAGE_INPUTS || |f.records| > f.planned {
        return false;
      }
      total := total + f.planned;
      var records := ValidateRecords(s.display, f);
      if !records || !StateOk(s.runner, timedOut, f) || (ended && !f.state.NotStarted?) {
        return false;
      }
      timedOut, ended := TimesOut(timedOut, f), EndsProcess(ended, f);
    }
    return total <= MAX_PACKAGE_INPUTS;
  }

  // ----- every normalized stream passes -----

  function Inputs(tests: seq<Test>): nat
    decreases |tests|
  {
    if tests == [] then 0 else |tests[0].inputs| + Inputs(tests[1..])
  }

  /** A harness as Render returns it. */
  predicate Proper(h: Harness) {
    && h.Renderable()
    && IsSuffix(h.suffix)
    && MIN_DISPLAY_BYTES <= h.display <= MAX_DISPLAY_BYTES
    && Inputs(h.tests) <= MAX_PACKAGE_INPUTS
    && forall k :: 0 <= k < |h.tests| ==>
         h.tests[k].name == TestName(h.runner, h.suffix, k + 1)
         && forall i :: 0 <= i < |h.tests[k].inputs| ==> h.tests[k].inputs[i] != "" && Valid(h.tests[k].inputs[i])
  }

  lemma {:induction false} InputsBound(tests: seq<Test>, k: nat)
    requires k < |tests|
    ensures |tests[k].inputs| <= Inputs(tests)
    decreases |tests|
  {
    if k > 0 {
      InputsBound(tests[1..], k - 1);
    }
  }

  lemma ProperName(h: Harness, f: int)
    requires Proper(h) && h.Has(f)
    ensures IsTestName(h.runner, h.Name(f)) && 1 <= h.Planned(f) <= MAX_PACKAGE_INPUTS
  {
    TestNames(h.runner, h.suffix, f, f);
    InputsBound(h.tests, f - 1);
  }

  predicate RecordsOk(h: Harness, f: int, records: seq<Record>)
    requires h.Has(f)
  {
    && |records| <= h.Planned(f)
    && forall i :: 0 <= i < |records| ==> RecordOk(h.display, i, records[i]) && records[i].call == h.tests[f - 1].inputs[i]
  }

  lemma RecordOfOk(h: Harness, red: Redaction, f: int, r: CallResult, i: nat)
    requires Proper(h) && red.KeepsUtf8() && h.Has(f) && i < h.Planned(f)
    requires Producible(h, r) && Spoken(r) && r.Observed?
    ensures RecordOk(h.display, i, RecordOf(h, red, f, r.obs, i))
  {}

  lemma RecordsOkSnoc(h: Harness, red: Redaction, f: int, records: seq<Record>, r: CallResult)
    requires Proper(h) && red.KeepsUtf8() && h.Has(f) && RecordsOk(h, f, records) && |records| < h.Planned(f)
    requires Producible(h, r) && Spoken(r) && r.Observed?
    ensures RecordsOk(h, f, records + [RecordOf(h, red, f, r.obs, |records|)])
  {
    RecordOfOk(h, red, f, r, |records|);
  }

  lemma ClosedStreamOk(h: Harness, f: int, records: seq<Record>, poisoned: bool, reason: string)
    requires Proper(h) && h.Has(f) && RecordsOk(h, f, records)
    ensures !poisoned && |records| == h.Planned(f) ==>
              FunctionOk(h.display, h.runner, poisoned, CompleteStream(h, f, records))
    ensures |records| < h.Planned(f) && StopOk(h.runner, poisoned, |records|, reason) ==>
              FunctionOk(h.display, h.runner, poisoned, StoppedStream(h, f, records, reason))
    ensures !poisoned || records == [] ==>
              FunctionOk(h.display, h.runner, poisoned, InterruptedStream(h, f, records))
    ensures FunctionOk(h.display, h.runner, poisoned, NotStartedStream(h, f))
  {
    hide IsTestName, RecordOk;
    ProperName(h, f);
  }

  lemma {:induction false} RanStreamOk(h: Harness, red: Redaction, f: int, records: seq<Record>, poisoned: bool, rs: seq<CallResult>)
    requires Proper(h) && red.KeepsUtf8() && h.Has(f) && ResultsFit(h, rs, h.Planned(f) - |records|)
    requires RecordsOk(h, f, records) && (poisoned ==> records == [])
    requires forall j :: 0 <= j < |rs| ==> Spoken(rs[j])
    ensures poisoned ==> rs != []
    ensures var fn := RanStream(h, red, f, records, poisoned, rs);
            && FunctionOk(h.display, h.runner, poisoned, fn) && Ended(fn)
            && TimesOut(poisoned, fn) == Poisons(poisoned, rs)
    decreases |rs|
  {
    hide IsTestName, RecordOk, RecordsOk, FunctionOk;
    ReasonsDiffer();
    ProperName(h, f);
    if poisoned {
      ClosedStreamOk(h, f, records, poisoned, POISONED);
    } else if rs == [] {
      ClosedStreamOk(h, f, records, poisoned, "");
    } else {
      assert Producible(h, rs[0]) && Spoken(rs[0]);
      if rs[0].Observed? {
        RecordsOkSnoc(h, red, f, records, rs[0]);
        RanStreamOk(h, red, f, records + [RecordOf(h, red, f, rs[0].obs, |records|)], poisoned, rs[1..]);
      } else {
        ClosedStreamOk(h, f, records, poisoned, Reason(rs[0].how));
      }
    }
  }

  /** The records of the first of the results `rs` of inputs k, k+1, ... */
  predicate RecordsFrom(h: Harness, red: Redaction, f: int, k: nat, rs: seq<CallResult>, records: seq<Record>)
    requires h.Has(f) && k + |rs| == h.Planned(f)
  {
    && |records| <= |rs|
    && forall j :: 0 <= j < |records| ==> rs[j].Observed? && records[j] == RecordOf(h, red, f, rs[j].obs, k + j)
  }

  lemma RecordsFromCons(h: Harness, red: Redaction, f: int, k: nat, rs: seq<CallResult>, records: seq<Record>)
    requires h.Has(f) && rs != [] && k + |rs| == h.Planned(f) && rs[0].Observed?
    requires RecordsFrom(h, red, f, k + 1, rs[1..], records)
    ensures RecordsFrom(h, red, f, k, rs, [RecordOf(h, red, f, rs[0].obs, k)] + records)
  {
    hide RecordOf;
    var all := [RecordOf(h, red, f, rs[0].obs, k)] + records;
    forall j | 0 <= j < |all|
      ensures rs[j].Observed? && all[j] == RecordOf(h, red, f, rs[j].obs, k + j)
    {
      if j > 0 {
        assert rs[1..][j - 1] == rs[j] && all[j] == records[j - 1];
      }
    }
  }

  /** The records among the first lines of a function are those of its first observations. */
  lemma {:induction false} RecordsInInputs(h: Harness, red: Redaction, f: int, k: nat, rs: seq<CallResult>, m: nat)
    requires h.Has(f) && k + |rs| == h.Planned(f) && m <= |InputLines(f, k, rs)|
    ensures RecordsFrom(h, red, f, k, rs, RecordsIn(h, red, f, InputLines(f, k, rs)[..m]))
    ensures m <= Observations(false, rs) ==> |RecordsIn(h, red, f, InputLines(f, k, rs)[..m])| == m
    decreases |rs|
  {
    hide RecordOf;
    var ls := InputLines(f, k, rs);
    if rs == [] || rs[0].Broke? {
      RecordsInNone(h, red, f, ls[..m]);
    } else if m > 0 {
      RecordsInInputs(h, red, f, k + 1, rs[1..], m - 1);
      var after := InputLines(f, k + 1, rs[1..])[..m - 1];
      assert ls[..m] == [ls[0]] + after;
      RecordsInFirst(h, red, f, ls[0], after);
      RecordsInOne(h, red, f, k, rs[0].obs);
      RecordsFromCons(h, red, f, k, rs, RecordsIn(h, red, f, after));
    }
  }

  lemma RecordsInOne(h: Harness, red: Redaction, f: int, k: nat, o: Obs)
    requires h.Has(f) && k < h.Planned(f)
    ensures RecordsIn(h, red, f, [Seen(f, k, o)]) == [RecordOf(h, red, f, o, k)]
  {
    assert [Seen(f, k, o)][1..] == [];
  }

  lemma {:induction false} RecordsInConcat(h: Harness, red: Redaction, f: int, a: seq<Line>, b: seq<Line>)
    requires h.Has(f)
    ensures RecordsIn(h, red, f, a + b) == RecordsIn(h, red, f, a) + RecordsIn(h, red, f, b)
    decreases |a|
  {
    hide RecordOf;
    if a == [] {
      assert a + b == b;
    } else {
      RecordsInConcat(h, red, f, a[1..], b);
      assert a + b == [a[0]] + (a[1..] + b);
      RecordsInFirst(h, red, f, a[0], a[1..] + b);
      assert a == [a[0]] + a[1..];
      RecordsInFirst(h, red, f, a[0], a[1..]);
    }
  }

  /** Lines that are no observations hold no records. */
  lemma {:induction false} RecordsInNone(h: Harness, red: Redaction, f: int, a: seq<Line>)
    requires h.Has(f) && forall k :: 0 <= k < |a| ==> !a[k].Seen?
    ensures RecordsIn(h, red, f, a) == []
    decreases |a|
  {
    hide RecordOf;
    if a != [] {
      RecordsInNone(h, red, f, a[1..]);
    }
  }

  /** The first m lines of a function, split at the end of its opening records and of its body. */
  lemma RecordsInTest(h: Harness, red: Redaction, f: int, poisoned: bool, rs: seq<CallResult>, m: nat)
    requires h.Has(f) && |rs| == h.Planned(f) && m <= |TestLines(h, f, poisoned, rs)|
    ensures var records := RecordsIn(h, red, f, TestLines(h, f, poisoned, rs)[..m]);
            && RecordsFrom(h, red, f, 0, rs, records)
            && (poisoned ==> records == [])
            && (|OpenLines(h, f)| <= m <= |OpenLines(h, f)| + Observations(poisoned, rs) ==> |records| == m - |OpenLines(h, f)|)
  {
    hide InputLines, Observations, RecordsIn, RecordOf;
    ObservationsShort(f, 0, rs);
    var opening, body, closing := OpenLines(h, f), BodyLines(f, 0, poisoned, rs), DoneLines(h, f, Observations(poisoned, rs));
    var ls := TestLines(h, f, poisoned, rs);
    RecordsInNone(h, red, f, opening);
    if m <= |opening| {
      assert ls[..m] == opening[..m];
      RecordsInNone(h, red, f, opening[..m]);
    } else {
      var n := m - |opening|;
      var inner := if n <= |body| then n else |body|;
      var tail := closing[..n - inner];
      assert ls[..m] == opening + (body[..inner] + tail);
      RecordsInConcat(h, red, f, opening, body[..inner] + tail);
      RecordsInConcat(h, red, f, body[..inner], tail);
      RecordsInNone(h, red, f, tail);
      if poisoned {
        RecordsInNone(h, red, f, body[..inner]);
      } else {
        RecordsInInputs(h, red, f, 0, rs, inner);
      }
      assert RecordsIn(h, red, f, ls[..m]) == RecordsIn(h, red, f, body[..inner]);
    }
  }

  lemma {:induction false} ObservationsShort(f: int, k: nat, rs: seq<CallResult>)
    ensures Observations(false, rs) < |InputLines(f, k, rs)|
    ensures Observations(true, rs) == 0
    decreases |rs|
  {
    if rs != [] && rs[0].Observed? {
      ObservationsShort(f, k + 1, rs[1..]);
    }
  }

  lemma InterruptedOk(h: Harness, red: Redaction, f: int, poisoned: bool, rs: seq<CallResult>, m: nat)
    requires Proper(h) && red.KeepsUtf8() && h.Has(f) && ResultsFit(h, rs, h.Planned(f))
    requires m <= |TestLines(h, f, poisoned, rs)| && forall j :: 0 <= j < |rs| ==> Spoken(rs[j])
    ensures FunctionOk(h.display, h.runner, poisoned, InterruptedStream(h, f, RecordsIn(h, red, f, TestLines(h, f, poisoned, rs)[..m])))
  {
    hide IsTestName, FunctionOk, TestLines, Valid;
    RecordsInTest(h, red, f, poisoned, rs, m);
    var records := RecordsIn(h, red, f, TestLines(h, f, poisoned, rs)[..m]);
    forall j | 0 <= j < |records|
      ensures RecordOk(h.display, j, records[j])
    {
      assert Producible(h, rs[j]) && Spoken(rs[j]);
      RecordOfOk(h, red, f, rs[j], j);
    }
    ClosedStreamOk(h, f, records, poisoned, "");
  }

  /** A tail of functions with the names and plans of the harness from f on. */
  predicate Planned(h: Harness, f: int, fs: seq<FunctionStream>)
    requires f >= 1
  {
    && f + |fs| == |h.tests| + 1
    && forall k :: 0 <= k < |fs| ==> fs[k].test == h.Name(f + k) && fs[k].planned == h.Planned(f + k)
  }

  lemma PlannedCons(h: Harness, f: int, fn: FunctionStream, fs: seq<FunctionStream>)
    requires h.Has(f) && Planned(h, f + 1, fs) && fn.test == h.Name(f) && fn.planned == h.Planned(f)
    ensures Planned(h, f, [fn] + fs)
  {
    forall k | 0 < k < |[fn] + fs|
      ensures ([fn] + fs)[k].test == h.Name(f + k) && ([fn] + fs)[k].planned == h.Planned(f + k)
    {
      assert ([fn] + fs)[k] == fs[k - 1];
      assert fs[k - 1].test == h.Name((f + 1) + (k - 1));
    }
  }

  lemma {:induction false} UnstartedNamed(h: Harness, f: int)
    requires 1 <= f <= |h.tests| + 1
    ensures Planned(h, f, Unstarted(h, f))
    decreases |h.tests| + 1 - f
  {
    if f <= |h.tests| {
      UnstartedNamed(h, f + 1);
      PlannedCons(h, f, NotStartedStream(h, f), Unstarted(h, f + 1));
    }
  }

  lemma {:induction false} RanNamed(h: Harness, red: Redaction, f: int, records: seq<Record>, poisoned: bool, rs: seq<CallResult>)
    requires h.Has(f) && |records| + |rs| == h.Planned(f) && (poisoned ==> rs != [])
    ensures var fn := RanStream(h, red, f, records, poisoned, rs); fn.test == h.Name(f) && fn.planned == h.Planned(f)
    decreases |rs|
  {
    hide RecordOf;
    if !poisoned && rs != [] && rs[0].Observed? {
      RanNamed(h, red, f, records + [RecordOf(h, red, f, rs[0].obs, |records|)], poisoned, rs[1..]);
    }
  }

  /** The functions of every stream are those of the harness, in its order. */
  lemma {:induction false} StreamNamed(h: Harness, red: Redaction, f: int, poisoned: bool, runs: seq<seq<CallResult>>, m: nat)
    requires h.Renderable() && RunsFit(h, f, runs)
    ensures Planned(h, f, StreamOf(h, red, f, poisoned, runs, m))
    decreases |runs|
  {
    hide Planned, TestLines, RecordsIn;
    if runs == [] || m == 0 {
      UnstartedNamed(h, f);
    } else {
      RunsTail(h, f, runs);
      var ls := TestLines(h, f, poisoned, runs[0]);
      if m < |ls| {
        UnstartedNamed(h, f + 1);
        PlannedCons(h, f, InterruptedStream(h, f, RecordsIn(h, red, f, ls[..m])), Unstarted(h, f + 1));
      } else {
        var poison := Poisons(poisoned, runs[0]);
        RanNamed(h, red, f, [], poisoned, runs[0]);
        StreamNamed(h, red, f + 1, poison, runs[1..], m - |ls|);
        PlannedCons(h, f, RanStream(h, red, f, [], poisoned, runs[0]), StreamOf(h, red, f + 1, poison, runs[1..], m - |ls|));
      }
    }
  }

  lemma {:induction false} UnstartedOk(h: Harness, f: int, ended: bool, timedOut: bool)
    requires Proper(h) && 1 <= f <= |h.tests| + 1
    ensures FunctionsOk(h.display, h.runner, ended, timedOut, Unstarted(h, f))
    decreases |h.tests| + 1 - f
  {
    hide FunctionOk;
    if f <= |h.tests| {
      ClosedStreamOk(h, f, [], timedOut, "");
      UnstartedOk(h, f + 1, true, timedOut);
      assert Unstarted(h, f)[1..] == Unstarted(h, f + 1);
    }
  }

  lemma FunctionsOkCons(display: nat, runner: Runner, timedOut: bool, fn: FunctionStream, fs: seq<FunctionStream>)
    requires FunctionOk(display, runner, timedOut, fn)
    requires FunctionsOk(display, runner, EndsProcess(false, fn), TimesOut(timedOut, fn), fs)
    ensures FunctionsOk(display, runner, false, timedOut, [fn] + fs)
  {
    hide FunctionOk;
    assert ([fn] + fs)[1..] == fs;
  }

  lemma {:induction false} StreamOk(h: Harness, red: Redaction, f: int, poisoned: bool, runs: seq<seq<CallResult>>, m: nat)
    requires Proper(h) && red.KeepsUtf8() && RunsFit(h, f, runs) && SpokenRuns(runs)
    ensures FunctionsOk(h.display, h.runner, false, poisoned, StreamOf(h, red, f, poisoned, runs, m))
    decreases |runs|
  {
    hide FunctionOk, IsTestName, RanStream, RecordsIn, TestLines, Poisons, ResultsFit;
    if runs == [] || m == 0 {
      UnstartedOk(h, f, false, poisoned);
    } else {
      RunsTail(h, f, runs);
      var ls := TestLines(h, f, poisoned, runs[0]);
      if m < |ls| {
        InterruptedOk(h, red, f, poisoned, runs[0], m);
        UnstartedOk(h, f + 1, true, poisoned);
        var fn := InterruptedStream(h, f, RecordsIn(h, red, f, ls[..m]));
        FunctionsOkCons(h.display, h.runner, poisoned, fn, Unstarted(h, f + 1));
      } else {
        assert SpokenRuns(runs[1..]);
        RanStreamOk(h, red, f, [], poisoned, runs[0]);
        var poison := Poisons(poisoned, runs[0]);
        StreamOk(h, red, f + 1, poison, runs[1..], m - |ls|);
        var fn := RanStream(h, red, f, [], poisoned, runs[0]);
        var fs := StreamOf(h, red, f + 1, poison, runs[1..], m - |ls|);
        FunctionsOkCons(h.display, h.runner, poisoned, fn, fs);
      }
    }
  }

  lemma {:induction false} TotalPlanned(h: Harness, f: int, fs: seq<FunctionStream>)
    requires 1 <= f <= |h.tests| + 1 && Planned(h, f, fs)
    ensures Total(fs) == Inputs(h.tests[f - 1..])
    decreases |fs|
  {
    if fs != [] {
      forall k | 0 <= k < |fs| - 1
        ensures fs[1..][k].test == h.Name(f + 1 + k) && fs[1..][k].planned == h.Planned(f + 1 + k)
      {
        assert fs[k + 1].test == h.Name(f + (k + 1));
      }
      TotalPlanned(h, f + 1, fs[1..]);
      assert fs[0].planned == h.Planned(f + 0);
      assert h.tests[f - 1..][1..] == h.tests[f..];
    }
  }

  lemma PlannedDistinct(h: Harness, fs: seq<FunctionStream>)
    requires Proper(h) && Planned(h, 1, fs)
    ensures Distinct(fs)
  {
    hide IsTestName, TestName;
    forall i, j | 0 <= i < j < |fs|
      ensures fs[i].test != fs[j].test
    {
      assert fs[i].test == h.Name(1 + i) && fs[j].test == h.Name(1 + j);
      TestNames(h.runner, h.suffix, i + 1, j + 1);
    }
  }

  /** Every stream the automaton builds passes the second acceptor, wherever the process died. */
  lemma NormalizedValidates(h: Harness, red: Redaction, runs: seq<seq<CallResult>>, m: nat)
    requires Proper(h) && red.KeepsUtf8() && RunsFit(h, 1, runs) && SpokenRuns(runs)
    ensures Validates(Stream(h.display, h.runner, StreamOf(h, red, 1, false, runs, m)))
  {
    hide StreamOf, FunctionsOk, IsTestName, Distinct;
    var fs := StreamOf(h, red, 1, false, runs, m);
    StreamOk(h, red, 1, false, runs, m);
    StreamNamed(h, red, 1, false, runs, m);
    TotalPlanned(h, 1, fs);
    PlannedDistinct(h, fs);
  }
}

/** The text that is stored of a run: whatever is accepted is stored, and read back as the stream it was. */
module Stored {
  import opened Utf8
  import opened Json
  import opened Records
  import opened Emitter
  import opened Automaton
  import opened Language
  import opened Normalizer
  import opened Capture
  import opened Validator
  import opened Compare
  import opened EndToEnd
  import opened Credentials
  import opened Likeness
  import opened Document
  import Wire

  const VERSION: int := 1
  const SCHEME := "probe-fuzz/v1"

  // ----- a stream as a document -----

  /** The stream of a Go harness names no runner. */
  function RunnerText(r: Runner): string {
    match r
    case GoTest => ""
    case Jest => "jest_json"
    case Pytest => "pytest_junit"
  }

  function RunnerNamed(text: string): (r: Option<Runner>)
    ensures forall k: Runner :: r == Some(k) <==> text == RunnerText(k)
  {
    assert RunnerText(Jest)[0] == 'j' && RunnerText(Pytest)[0] == 'p';
    if text == "" then Some(GoTest) else if text == "jest_json" then Some(Jest) else if text == "pytest_junit" then Some(Pytest) else None
  }

  function StateText(s: State): string {
    match s
    case Reading => ""
    case Complete => "complete"
    case Stopped => "stopped"
    case Interrupted => "interrupted"
    case NotStarted => "not_started"
  }

  function StateNamed(text: string): (r: Option<State>)
    ensures forall s: State :: r == Some(s) <==> text == StateText(s)
  {
    StatesDiffer();
    if text == "" then Some(Reading)
    else if text == "complete" then Some(Complete)
    else if text == "stopped" then Some(Stopped)
    else if text == "interrupted" then Some(Interrupted)
    else if text == "not_started" then Some(NotStarted)
    else None
  }

  lemma StatesDiffer()
    ensures StateText(Complete)[0] == 'c' && StateText(Stopped)[0] == 's' && StateText(Interrupted)[0] == 'i' && StateText(NotStarted)[0] == 'n'
  {}

  function EntryOf(f: FunctionStream): Entry {
    Entry(f.test, f.planned, StateText(f.state), f.stop, f.at, f.atCall, Some(f.records))
  }

  function FunctionOf(e: Entry): Option<FunctionStream> {
    match (StateNamed(e.state), e.records)
    case (Some(state), Some(records)) => Some(FunctionStream(e.test, e.planned, state, e.stop, e.at, e.atCall, records))
    case _ => None
  }

  function EntriesOf(fs: seq<FunctionStream>): (es: seq<Entry>)
    ensures |es| == |fs| && forall k :: 0 <= k < |es| ==> es[k] == EntryOf(fs[k])
  {
    seq(|fs|, k requires 0 <= k < |fs| => EntryOf(fs[k]))
  }

  function FunctionsOf(es: seq<Entry>): Option<seq<FunctionStream>> {
    if forall k :: 0 <= k < |es| ==> FunctionOf(es[k]).Some?
    then Some(seq(|es|, k requires 0 <= k < |es| => FunctionOf(es[k]).value))
    else None
  }

  lemma FunctionsExact(es: seq<Entry>, fs: seq<FunctionStream>)
    ensures FunctionsOf(es) == Some(fs) <==> es == EntriesOf(fs)
  {
    hide FunctionOf, EntryOf;
    forall k | 0 <= k < |es| && k < |fs|
      ensures FunctionOf(es[k]) == Some(fs[k]) <==> es[k] == EntryOf(fs[k])
    {
      FunctionExact(es[k], fs[k]);
    }
    if es == EntriesOf(fs) {
      assert |es| == |fs|;
      forall k | 0 <= k < |es|
        ensures FunctionOf(es[k]) == Some(fs[k])
      {
        assert es[k] == EntriesOf(fs)[k];
      }
      assert FunctionsOf(es).value == fs;
    }
  }

  lemma FunctionExact(e: Entry, f: FunctionStream)
    ensures FunctionOf(e) == Some(f) <==> e == EntryOf(f)
  {}

  function DocOf(s: Stream): Doc {
    Doc(VERSION, SCHEME, s.display, RunnerText(s.runner), Some(EntriesOf(s.functions)))
  }

  /** Stream.validate, with the checks on the version, the scheme, the runner and missing lists. */
  function Validated(d: Doc): Option<Stream> {
    if d.version != VERSION || d.scheme != SCHEME then None
    else match RunnerNamed(d.runner)
         case None => None
         case Some(runner) =>
           if d.display < 0 || d.functions.None? then None
           else match FunctionsOf(d.functions.value)
                case None => None
                case Some(fs) => if Validates(Stream(d.display, runner, fs)) then Some(Stream(d.display, runner, fs)) else None
  }

  /** A document passes exactly when it is that of a stream that passes. */
  lemma ValidatedExact(d: Doc, s: Stream)
    ensures Validated(d) == Some(s) <==> d == DocOf(s) && Validates(s)
  {
    hide Validates, RunnerText, EntriesOf, FunctionsOf, RunnerNamed;
    if d.functions.Some? {
      FunctionsExact(d.functions.value, s.functions);
      if FunctionsOf(d.functions.value).Some? {
        FunctionsExact(d.functions.value, FunctionsOf(d.functions.value).value);
      }
    }
    assert RunnerNamed(RunnerText(s.runner)) == Some(s.runner);
  }

  // ----- reading a stored text -----

  /** Text and numbers that the text can hold. */
  predicate RecordStorable(r: Record) {
    Wire.Int64(r.index) && Wire.Int64(r.length) && Valid(r.call) && Valid(r.hash) && Valid(r.display)
  }

  predicate EntryStorable(e: Entry) {
    && Wire.Int64(e.planned) && Wire.Int64(e.at)
    && Valid(e.test) && Valid(e.state) && Valid(e.stop) && Valid(e.atCall)
    && (e.records.Some? ==> forall k :: 0 <= k < |e.records.value| ==> RecordStorable(e.records.value[k]))
  }

  predicate Storable(d: Doc) {
    && Wire.Int64(d.version) && Wire.Int64(d.display) && Valid(d.scheme) && Valid(d.runner)
    && (d.functions.Some? ==> forall k :: 0 <= k < |d.functions.value| ==> EntryStorable(d.functions.value[k]))
  }

  /** The decoder of encoding/json gives storable documents, and gives back every one that was encoded. */
  ghost predicate Decodes(decode: string -> Option<Doc>) {
    && (forall x :: decode(x).Some? ==> Storable(decode(x).value))
    && (forall d :: Storable(d) ==> decode(Encode(d)) == Some(d))
  }

  ghost function Decoded(x: string): (r: Option<Doc>)
    ensures r.Some? ==> Storable(r.value) && Encode(r.value) == x
    ensures r.None? ==> forall d :: Storable(d) ==> Encode(d) != x
  {
    if d :| Storable(d) && Encode(d) == x then
      var d :| Storable(d) && Encode(d) == x;
      Some(d)
    else None
  }

  /** There is such a decoder, because the encoding loses nothing. */
  lemma DecoderExists() returns (decode: string -> Option<Doc>)
    ensures Decodes(decode)
  {
    hide Encode, Storable;
    decode := x => Decoded(x);
    forall d | Storable(d)
      ensures decode(Encode(d)) == Some(d)
    {
      EncodeInjective(d, Decoded(Encode(d)).value);
    }
  }

  /** ParseResults. */
  function Parsed(results: string, red: Redaction, decode: string -> Option<Doc>): Option<Stream> {
    if results == "" || !red.fixed(results) then None
    else match decode(results)
         case None => None
         case Some(d) => if Encode(d) != results then None else Validated(d)
  }

  /** A text is read as a stream exactly when it is the text of that stream, the stream passes, and redaction leaves the text alone. */
  lemma ParsedExact(results: string, red: Redaction, decode: string -> Option<Doc>, s: Stream)
    requires Decodes(decode)
    ensures Parsed(results, red, decode) == Some(s) <==>
            results == Encode(DocOf(s)) && Storable(DocOf(s)) && Validates(s) && red.fixed(results)
  {
    hide Validates, Encode, Storable, Validated, DocOf;
    var r := decode(results);
    EncodeNotEmpty(DocOf(s));
    if r.Some? {
      ValidatedExact(r.value, s);
    }
    ValidatedExact(DocOf(s), s);
  }

  lemma EncodeNotEmpty(d: Doc)
    ensures Encode(d) != ""
  {
    hide ItemText;
    var items := DocItems(d);
    assert items[0] == Mark("{");
    BraceText();
    assert Texts(items)[0] == "{";
  }

  lemma BraceText()
    ensures ItemText(Mark("{")) == "{"
  {}

  // ----- every accepted payload passes again -----

  /** The display of an observation is text. */
  function Readable(): Obs -> bool {
    (o: Obs) => Valid(o.shown)
  }

  function MadeReadable(r: CallResult): CallResult {
    if r.Observed? && !Valid(r.obs.shown) then Observed(r.obs.(shown := seq(|r.obs.shown|, _ => 'x'))) else r
  }

  lemma MadeReadableIs(h: Harness, r: CallResult)
    requires Producible(h, r)
    ensures Producible(h, MadeReadable(r)) && Spoken(MadeReadable(r)) && SameResult(Readable(), r, MadeReadable(r))
  {
    hide Valid;
    if r.Observed? {
      AsciiIsValid(seq(|r.obs.shown|, _ => 'x'));
    }
  }

  function AllReadable(rs: seq<CallResult>): (s: seq<CallResult>)
    ensures |s| == |rs| && forall k :: 0 <= k < |s| ==> s[k] == MadeReadable(rs[k])
  {
    seq(|rs|, k requires 0 <= k < |rs| => MadeReadable(rs[k]))
  }

  function RunsReadable(runs: seq<seq<CallResult>>): (s: seq<seq<CallResult>>)
    ensures |s| == |runs| && forall k :: 0 <= k < |s| ==> s[k] == AllReadable(runs[k])
  {
    seq(|runs|, k requires 0 <= k < |runs| => AllReadable(runs[k]))
  }

  lemma RunsReadableFit(h: Harness, runs: seq<seq<CallResult>>)
    requires RunsFit(h, 1, runs)
    ensures var made := RunsReadable(runs); RunsFit(h, 1, made) && SpokenRuns(made) && SameRuns(Readable(), runs, made)
  {
    hide MadeReadable, Producible, Spoken, SameResult;
    var made := RunsReadable(runs);
    forall k | 0 <= k < |runs|
      ensures ResultsFit(h, made[k], h.Planned(1 + k)) && SameResults(Readable(), runs[k], made[k])
      ensures forall j :: 0 <= j < |made[k]| ==> Spoken(made[k][j])
    {
      assert ResultsFit(h, runs[k], h.Planned(1 + k));
      forall j | 0 <= j < |runs[k]|
        ensures Producible(h, made[k][j]) && Spoken(made[k][j]) && SameResult(Readable(), runs[k][j], made[k][j])
      {
        MadeReadableIs(h, runs[k][j]);
      }
    }
  }

  /** Accepted records are a prefix of a run all of whose displays are text. */
  lemma AcceptedIsReadable(h: Harness, red: Redaction, ls: seq<Line>) returns (runs: seq<seq<CallResult>>)
    requires h.Renderable() && Accepts(h, red, ls) && AllGood(Readable(), ls)
    ensures RunsFit(h, 1, runs) && SpokenRuns(runs) && ls <= Run(h, runs)
  {
    hide SameLines, SameRuns, AllGood;
    var given := AcceptedIsPrefix(h, red, ls);
    RunsReadableFit(h, given);
    runs := RunsReadable(given);
    SameRun(h, Readable(), 1, false, given, runs);
    SamePrefix(Readable(), Run(h, given), Run(h, runs), ls);
    SameLength(Readable(), Run(h, given), Run(h, runs));
    GoodIsSame(Readable(), ls, Run(h, runs)[..|ls|]);
  }

  lemma SameLength(good: Obs -> bool, a: seq<Line>, b: seq<Line>)
    requires SameLines(good, a, b)
    ensures |a| == |b|
  {}

  lemma WellFormedReadable(ls: seq<Line>)
    requires AllWellFormed(ls)
    ensures AllGood(Readable(), ls)
  {
    hide Valid;
  }

  function StreamFor(h: Harness, fs: seq<FunctionStream>): Stream {
    Stream(h.display, h.runner, fs)
  }

  /** What is made of an accepted payload passes the second acceptor: it refuses nothing of its own. */
  lemma NormalValidates(h: Harness, red: Redaction, payload: string)
    requires Proper(h) && red.KeepsUtf8() && Normal(h, red, payload).Some?
    ensures Validates(StreamFor(h, Normal(h, red, payload).value))
  {
    hide Validates, Normal, AllGood, AllWellFormed, SpokenRuns, StreamOf, Wire.File, Run;
    var ls := AcceptedIsFile(h, red, payload);
    WellFormedReadable(ls);
    var runs := AcceptedIsReadable(h, red, ls);
    StatesOfRun(h, red, runs, ls);
    NormalOfFile(h, red, ls);
    NormalizedValidates(h, red, runs, |ls|);
  }

  // ----- the strings of an accepted payload -----

  /** No call, or that of an input of the harness. */
  predicate CallOf(h: Harness, c: string) {
    c == "" || exists k, i :: 0 <= k < |h.tests| && 0 <= i < |h.tests[k].inputs| && c == h.tests[k].inputs[i]
  }

  predicate RecordFrom(h: Harness, r: Record) {
    CallOf(h, r.call) && Safe(r.display)
  }

  predicate RecordsFrom(h: Harness, rs: seq<Record>) {
    forall k :: 0 <= k < |rs| ==> RecordFrom(h, rs[k])
  }

  predicate FunctionFrom(h: Harness, f: FunctionStream) {
    && (exists k :: 0 <= k < |h.tests| && f.test == h.tests[k].name)
    && f.stop in {"", TIMEOUT, GOEXIT, ABORT, POISONED} && CallOf(h, f.atCall) && RecordsFrom(h, f.records)
  }

  predicate FunctionsFrom(h: Harness, fs: seq<FunctionStream>) {
    forall k :: 0 <= k < |fs| ==> FunctionFrom(h, fs[k])
  }

  predicate AutoFrom(h: Harness, a: Auto) {
    FunctionsFrom(h, a.finished) && RecordsFrom(h, a.records) && (a.phase.Closed? ==> FunctionFrom(h, a.phase.closing))
  }

  lemma DisplaySafe(red: Redaction, shown: string, limit: nat)
    requires red == UrlRule()
    ensures Safe(DisplayValue(red, shown, limit))
  {
    hide Mask, Marshal, Redacted;
    MarshalColon(MARKER);
    WithoutColon(Marshal(MARKER));
  }

  lemma RecordOfFrom(h: Harness, red: Redaction, f: int, o: Obs, i: nat)
    requires h.Has(f) && i < h.Planned(f) && red == UrlRule()
    ensures RecordFrom(h, RecordOf(h, red, f, o, i))
  {
    hide Safe, DisplayValue;
    DisplaySafe(red, o.shown, h.display);
    assert h.tests[f - 1].inputs[i] == RecordOf(h, red, f, o, i).call;
  }

  lemma StoppedFrom(h: Harness, f: int, records: seq<Record>, reason: string)
    requires h.Has(f) && |records| < h.Planned(f) && RecordsFrom(h, records) && reason in {TIMEOUT, GOEXIT, ABORT, POISONED}
    ensures FunctionFrom(h, StoppedStream(h, f, records, reason))
  {
    hide RecordFrom;
    assert h.tests[f - 1].name == h.Name(f) && h.tests[f - 1].inputs[|records|] == StoppedStream(h, f, records, reason).atCall;
  }

  lemma CompleteFrom(h: Harness, f: int, records: seq<Record>)
    requires h.Has(f) && RecordsFrom(h, records)
    ensures FunctionFrom(h, CompleteStream(h, f, records)) && FunctionFrom(h, InterruptedStream(h, f, records))
  {
    hide RecordFrom;
    assert h.tests[f - 1].name == h.Name(f);
    if |records| < h.Planned(f) {
      assert h.tests[f - 1].inputs[|records|] == InterruptedStream(h, f, records).atCall;
    }
  }

  lemma StepFrom(h: Harness, red: Redaction, a: Auto, l: Line)
    requires red == UrlRule() && AutoFrom(h, a) && Step(h, red, a, l).Some?
    ensures AutoFrom(h, Step(h, red, a, l).value)
  {
    hide FunctionFrom, RecordFrom, RecordOf, StoppedStream, CompleteStream;
    if a.phase.Open? {
      var f := a.F();
      match l
      case Seen(_, i, o) => RecordOfFrom(h, red, f, o, i);
      case Stop(_, i, reason) => StoppedFrom(h, f, a.records, reason);
      case End(_, _) => CompleteFrom(h, f, a.records);
      case _ =>
    }
  }

  lemma {:induction false} FoldFrom(h: Harness, red: Redaction, a: Auto, ls: seq<Line>)
    requires red == UrlRule() && AutoFrom(h, a) && Fold(h, red, a, ls).Some?
    ensures AutoFrom(h, Fold(h, red, a, ls).value)
    decreases |ls|
  {
    hide AutoFrom, Step;
    if ls != [] {
      StepFrom(h, red, a, ls[0]);
      FoldFrom(h, red, Step(h, red, a, ls[0]).value, ls[1..]);
    }
  }

  lemma NotStartedFrom(h: Harness, f: int)
    requires h.Has(f)
    ensures FunctionFrom(h, NotStartedStream(h, f))
  {
    assert h.tests[f - 1].name == h.Name(f);
  }

  lemma {:induction false} UnstartedFrom(h: Harness, f: int)
    requires 1 <= f <= |h.tests| + 1
    ensures FunctionsFrom(h, Unstarted(h, f))
    decreases |h.tests| + 1 - f
  {
    hide FunctionFrom;
    if f <= |h.tests| {
      NotStartedFrom(h, f);
      UnstartedFrom(h, f + 1);
    }
  }

  lemma FinishFrom(h: Harness, a: Auto)
    requires Sound(h, a) && AutoFrom(h, a)
    ensures FunctionsFrom(h, Finish(h, a))
  {
    hide FunctionFrom, RecordsFrom, Unstarted, InterruptedStream;
    UnstartedFrom(h, Next(a));
    if !a.phase.Between? {
      CompleteFrom(h, a.F(), a.records);
    }
  }

  lemma NormalFrom(h: Harness, payload: string)
    requires h.Renderable() && Normal(h, UrlRule(), payload).Some?
    ensures FunctionsFrom(h, Normal(h, UrlRule(), payload).value)
  {
    hide FunctionsFrom, RecordsFrom, Finish;
    var red := UrlRule();
    ReadsIsFold(h, red, START, Wire.Lines(payload));
    SoundReads(h, red, payload);
    assert AutoFrom(h, START) by {
      StartFrom(h);
    }
    FoldFrom(h, red, START, ParseAll(Wire.Lines(payload)).value);
    FinishFrom(h, Reads(h, red, START, Wire.Lines(payload)).value);
  }

  lemma StartFrom(h: Harness)
    ensures AutoFrom(h, START)
  {}

  // ----- storing an accepted payload -----

  /** Redaction leaves every call as it is in its escaped form, as the selection of inputs requires. */
  predicate SafeCalls(h: Harness) {
    forall k :: 0 <= k < |h.tests| ==> forall i :: 0 <= i < |h.tests[k].inputs| ==> Safe(h.tests[k].inputs[i])
  }

  lemma SafePlain(t: string)
    requires ':' !in t
    ensures Safe(t)
  {
    hide Marshal, Mask;
    MarshalColon(t);
    WithoutColon(Marshal(t));
  }

  lemma CallSafe(h: Harness, c: string)
    requires SafeCalls(h) && CallOf(h, c)
    ensures Safe(c)
  {
    hide Safe;
    SafePlain("");
  }

  lemma CallValid(h: Harness, c: string)
    requires Proper(h) && CallOf(h, c)
    ensures Valid(c)
  {
    hide Valid, TestName;
    AsciiIsValid("");
  }

  lemma NameSafe(h: Harness, name: string)
    requires Proper(h) && exists k :: 0 <= k < |h.tests| && name == h.tests[k].name
    ensures Safe(name) && Valid(name)
  {
    hide Valid, Safe, TestName;
    var k :| 0 <= k < |h.tests| && name == h.tests[k].name;
    assert name == TestName(h.runner, h.suffix, k + 1);
    NameWithoutColon(h.runner, h.suffix, k + 1);
    SafePlain(name);
    TestNameIsText(h.runner, h.suffix, k + 1);
  }

  lemma NameWithoutColon(runner: Runner, suffix: string, number: nat)
    requires LowerHex(suffix)
    ensures ':' !in TestName(runner, suffix, number)
  {
    hide Digits;
    assert ':' !in Itoa(number);
    assert ':' !in Prefix(runner);
    assert ':' !in suffix;
  }

  lemma StopIsText(stop: string)
    requires stop in {"", TIMEOUT, GOEXIT, ABORT, POISONED}
    ensures Safe(stop) && Valid(stop)
  {
    hide Valid, Safe;
    assert ':' !in stop && Ascii(stop);
    SafePlain(stop);
    AsciiIsValid(stop);
  }

  lemma StateIsText(s: State)
    ensures Safe(StateText(s)) && Valid(StateText(s))
  {
    hide Valid, Safe;
    var t := StateText(s);
    assert ':' !in t && Ascii(t);
    SafePlain(t);
    AsciiIsValid(t);
  }

  lemma HashIsText(hash: string)
    requires IsHash(hash)
    ensures Safe(hash) && Valid(hash)
  {
    hide Valid, Safe;
    assert ':' !in hash && Ascii(hash);
    SafePlain(hash);
    AsciiIsValid(hash);
  }

  lemma RecordIsText(h: Harness, display: nat, i: nat, r: Record)
    requires Proper(h) && RecordOk(display, i, r) && RecordFrom(h, r) && i < MAX_PACKAGE_INPUTS
    ensures RecordStorable(r) && (SafeCalls(h) ==> RecordSafe(r))
  {
    hide Valid, Safe, CallOf, IsHash, SafeCalls;
    HashIsText(r.hash);
    if SafeCalls(h) {
      CallSafe(h, r.call);
    }
  }

  lemma RecordsAreText(h: Harness, display: nat, f: FunctionStream)
    requires Proper(h) && RecordsFrom(h, f.records) && |f.records| <= MAX_PACKAGE_INPUTS
    requires forall i :: 0 <= i < |f.records| ==> RecordOk(display, i, f.records[i])
    ensures forall i :: 0 <= i < |f.records| ==> RecordStorable(f.records[i])
    ensures SafeCalls(h) ==> RecordsSafe(f.records)
  {
    hide RecordOk, RecordFrom, RecordStorable, RecordSafe, SafeCalls, Proper;
    forall i | 0 <= i < |f.records|
      ensures RecordStorable(f.records[i]) && (SafeCalls(h) ==> RecordSafe(f.records[i]))
    {
      RecordIsText(h, display, i, f.records[i]);
    }
  }

  lemma FunctionIsText(h: Harness, display: nat, runner: Runner, late: bool, f: FunctionStream)
    requires Proper(h) && FunctionOk(display, runner, late, f) && FunctionFrom(h, f)
    ensures EntryStorable(EntryOf(f)) && (SafeCalls(h) ==> EntrySafe(EntryOf(f)))
  {
    hide Valid, Safe, CallOf, SafeCalls, IsTestName, RecordOk, RecordsFrom, RecordStorable, RecordsSafe, Proper, StateText;
    NameSafe(h, f.test);
    StopIsText(f.stop);
    StateIsText(f.state);
    CallValid(h, f.atCall);
    RecordsAreText(h, display, f);
    AtIsSmall(display, runner, late, f);
    if SafeCalls(h) {
      CallSafe(h, f.atCall);
    }
  }

  lemma AtIsSmall(display: nat, runner: Runner, late: bool, f: FunctionStream)
    requires FunctionOk(display, runner, late, f)
    ensures -1 <= f.at <= MAX_PACKAGE_INPUTS && 1 <= f.planned <= MAX_PACKAGE_INPUTS
  {
    hide IsTestName, RecordOk;
  }

  lemma RunnerIsText(r: Runner)
    ensures Valid(RunnerText(r)) && Safe(RunnerText(r)) && Valid(SCHEME) && Safe(SCHEME)
  {
    hide Valid, Safe;
    var t := RunnerText(r);
    assert ':' !in t && Ascii(t) && ':' !in SCHEME && Ascii(SCHEME);
    SafePlain(t);
    SafePlain(SCHEME);
    AsciiIsValid(t);
    AsciiIsValid(SCHEME);
  }

  lemma StreamIsText(h: Harness, fs: seq<FunctionStream>)
    requires Proper(h) && FunctionsFrom(h, fs) && Validates(StreamFor(h, fs))
    ensures Storable(DocOf(StreamFor(h, fs))) && (SafeCalls(h) ==> DocSafe(DocOf(StreamFor(h, fs))))
  {
    hide Valid, Safe, FunctionOk, FunctionFrom, EntryStorable, EntrySafe, EntryOf, SafeCalls, RunnerText, FunctionsOk, Validator.Distinct;
    RunnerIsText(h.runner);
    forall k | 0 <= k < |fs|
      ensures EntryStorable(EntryOf(fs[k])) && (SafeCalls(h) ==> EntrySafe(EntryOf(fs[k])))
    {
      FunctionsEach(h.display, h.runner, false, false, fs, fs[k]);
      var late :| FunctionOk(h.display, h.runner, late, fs[k]);
      FunctionIsText(h, h.display, h.runner, late, fs[k]);
    }
  }

  /** What Normalize returns: the text of the stream, if it is read back. */
  function TextFor(h: Harness, red: Redaction, payload: string, decode: string -> Option<Doc>): Option<string>
    requires h.Renderable()
  {
    match Normal(h, red, payload)
    case None => None
    case Some(fs) =>
      var results := Encode(DocOf(StreamFor(h, fs)));
      if Parsed(results, red, decode).None? then None else Some(results)
  }

  /** The end of Normalize and of normalizeScript: the functions become a text, which is read once more. */
  method Store(h: Harness, red: Redaction, payload: string, decode: string -> Option<Doc>) returns (r: Option<string>)
    requires Rendered(h)
    ensures r == TextFor(h, red, payload, decode)
  {
    hide Normal, Encode, Parsed;
    var functions := Normalize(h, red, payload);
    if functions.None? {
      return None;
    }
    var results := Encode(DocOf(Stream(h.display, h.runner, functions.value)));
    if Parsed(results, red, decode).None? {
      return None;
    }
    return Some(results);
  }

  /**
   Nothing accepted is refused when it is stored, and nothing is lost: a payload has a stored text
   exactly when the record order accepts it, and the text is read back as its stream.
   */
  lemma StoredExact(h: Harness, payload: string, decode: string -> Option<Doc>)
    requires Proper(h) && SafeCalls(h) && Decodes(decode)
    ensures TextFor(h, UrlRule(), payload, decode).Some? <==> Normal(h, UrlRule(), payload).Some?
    ensures TextFor(h, UrlRule(), payload, decode).Some? ==>
              Parsed(TextFor(h, UrlRule(), payload, decode).value, UrlRule(), decode) == Some(StreamFor(h, Normal(h, UrlRule(), payload).value))
  {
    hide Normal, Encode, Parsed, Validates, Storable, DocSafe, Decodes, SafeCalls, FunctionsFrom, DocOf, Fixed;
    if Normal(h, UrlRule(), payload).Some? {
      var fs := Normal(h, UrlRule(), payload).value;
      UrlRuleKeepsUtf8();
      NormalValidates(h, UrlRule(), payload);
      NormalFrom(h, payload);
      StreamIsText(h, fs);
      EncodeSafe(DocOf(StreamFor(h, fs)));
      ParsedExact(Encode(DocOf(StreamFor(h, fs))), UrlRule(), decode, StreamFor(h, fs));
    }
  }

  /**
   From the process to what is read back: of a process that died at any byte, a stream is stored
   exactly when the bytes end with a complete line, and what is read back is the stream of its
   run at that line.
   */
  lemma CapturedIsStored(h: Harness, hash: string -> string, launch: Launch, p: string, decode: string -> Option<Doc>)
    requires Proper(h) && SafeCalls(h) && Decodes(decode)
    requires Hashes(hash) && launch.Fits(h) && Captured(h, hash, launch, p)
    ensures TextFor(h, UrlRule(), p, decode).Some? <==> p[|p| - 1] == '\n'
    ensures p[|p| - 1] == '\n' ==>
              exists m: nat :: 0 < m && Parsed(TextFor(h, UrlRule(), p, decode).value, UrlRule(), decode)
                                        == Some(StreamFor(h, Left(h, UrlRule(), hash, launch, m)))
  {
    hide Normal, Parsed, TextFor, Decodes, SafeCalls, Run, StreamOf;
    ProperIsRendered(h);
    ResultsFitHarness(h, hash, launch);
    var runs := launch.Results(h, hash);
    CapturedPrefix(h, UrlRule(), runs, p);
    StoredExact(h, p, decode);
    if p[|p| - 1] == '\n' {
      var m: nat :| 0 < m <= |Run(h, runs)| && p == Wire.File(Run(h, runs)[..m])
                    && Normal(h, UrlRule(), p) == Some(StreamOf(h, UrlRule(), 1, false, runs, m));
      assert Left(h, UrlRule(), hash, launch, m) == StreamOf(h, UrlRule(), 1, false, runs, m);
    }
  }

  // ----- soundness, down to the stored texts -----

  /** What is kept of a payload: the text Normalize returns, or none. */
  predicate Keeps(h: Harness, red: Redaction, payload: string, decode: string -> Option<Doc>, text: string)
    requires h.Renderable()
  {
    text == "" || TextFor(h, red, payload, decode) == Some(text)
  }

  /** The results of a check as ParseResults reads its text. */
  predicate ReadsBack(c: Option<Check>, red: Redaction, decode: string -> Option<Doc>, text: string) {
    c.Some? ==> c.value.results == if text == "" then Missing else match Parsed(text, red, decode) case None => Unreadable case Some(s) => Stored(s)
  }

  lemma DocTellsStream(s: Stream, t: Stream)
    requires DocOf(s) == DocOf(t)
    ensures s == t
  {
    hide EntriesOf, FunctionsOf, RunnerText;
    FunctionsExact(EntriesOf(s.functions), s.functions);
    FunctionsExact(EntriesOf(s.functions), t.functions);
    assert RunnerNamed(RunnerText(s.runner)) == Some(s.runner) && RunnerNamed(RunnerText(t.runner)) == Some(t.runner);
  }

  lemma KeptNormalizes(c: Option<Check>, h: Harness, red: Redaction, payload: string, decode: string -> Option<Doc>, text: string)
    requires h.Renderable() && Decodes(decode) && Keeps(h, red, payload, decode, text) && ReadsBack(c, red, decode, text)
    ensures Normalizes(c, h, red, payload)
  {
    hide Normal, Encode, Parsed, Validates, Storable, Decodes, DocOf;
    if c.Some? && c.value.results.Stored? {
      var s, t := c.value.results.stream, StreamFor(h, Normal(h, red, payload).value);
      ParsedExact(text, red, decode, s);
      EncodeInjective(DocOf(s), DocOf(t));
      DocTellsStream(s, t);
    }
  }

  /** The four texts of the two pairs. */
  predicate AllKept(c: Checks, h: Harness, red: Redaction, decode: string -> Option<Doc>, p: Payloads, kept: Payloads)
    requires h.Renderable()
  {
    && Keeps(h, red, p.b1, decode, kept.b1) && ReadsBack(c.base, red, decode, kept.b1)
    && Keeps(h, red, p.c1, decode, kept.c1) && ReadsBack(c.candidate, red, decode, kept.c1)
    && Keeps(h, red, p.b2, decode, kept.b2) && ReadsBack(c.baseConfirm, red, decode, kept.b2)
    && Keeps(h, red, p.c2, decode, kept.c2) && ReadsBack(c.candidateConfirm, red, decode, kept.c2)
  }

  /**
   From the code that ran to a report that is read again: whatever four processes left behind, whatever
   texts were kept of it and whatever any redaction does, a DIVERGED derived from the kept texts
   means that the revisions' code differs at every listed input.
   */
  lemma SoundnessOfTexts(passed: PassedIn, c: Checks, h: Harness, red: Redaction, hash: string -> string, decode: string -> Option<Doc>,
                         l: Launches, p: Payloads, kept: Payloads, f: int)
    requires Proper(h) && Hashes(hash) && Decodes(decode) && l.Fits(h) && h.Has(f)
    requires AllLeft(h, hash, l, p) && AllKept(c, h, red, decode, p, kept)
    requires Evaluated(passed, c, h.Name(f), h.Planned(f)).outcome.Diverged?
    ensures var ev := Evaluated(passed, c, h.Name(f), h.Planned(f));
            && ev.divergent != []
            && forall d :: d in ev.divergent ==> 0 <= d.index < h.Planned(f) && Differs(h, hash, l, f, d.index)
  {
    hide Evaluated, Differs, LeavesBehind, Normalizes, Keeps, ReadsBack, Decodes;
    KeptNormalizes(c.base, h, red, p.b1, decode, kept.b1);
    KeptNormalizes(c.candidate, h, red, p.c1, decode, kept.c1);
    KeptNormalizes(c.baseConfirm, h, red, p.b2, decode, kept.b2);
    KeptNormalizes(c.candidateConfirm, h, red, p.c2, decode, kept.c2);
    SoundnessOfBytes(passed, c, h, red, hash, l, p, f);
  }
}

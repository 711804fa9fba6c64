/** The data model of a harness and its streams. */
module Records {
  import opened Utf8
  import opened Json
  import Text

  const MAX_ENCODING_BYTES: nat := 65536
  const MAX_DISPLAY_BYTES: nat := 256
  const MIN_DISPLAY_BYTES: nat := 32
  const MAX_PACKAGE_INPUTS: nat := 1024
  const MAX_HARNESS_TESTS: nat := 32

  /** The runner of a harness. Script runners frame every test with head and done records. */
  datatype Runner = GoTest | Jest | Pytest {
    predicate Framed() {
      !GoTest?
    }
  }

  /** One rendered fuzz test: its name and the call text of every planned input. */
  datatype Test = Test(name: string, inputs: seq<string>)

  datatype Harness = Harness(runner: Runner, suffix: string, display: nat, tests: seq<Test>) {
    /** Functions are numbered from 1 in the stream. */
    predicate Has(f: int) {
      1 <= f <= |tests|
    }

    function Planned(f: int): nat
      requires Has(f)
    {
      |tests[f - 1].inputs|
    }

    function Name(f: int): string
      requires Has(f)
    {
      tests[f - 1].name
    }

    /** What Render guarantees: some tests, not too many, each with at least one input. */
    predicate Renderable() {
      && 1 <= |tests| <= MAX_HARNESS_TESTS
      && forall k :: 0 <= k < |tests| ==> tests[k].inputs != []
    }
  }

  /** What one observation record says about one input. */
  datatype Obs = Obs(hash: string, length: int, shown: string, panicked: bool, unstable: bool, truncated: bool)

  /** One record of the raw stream. Numbers are what the text says: they may be out of range. */
  datatype Line =
    | Head(f: int, suffix: string, test: string)
    | Begin(f: int, n: int)
    | Seen(f: int, i: int, obs: Obs)
    | Stop(f: int, i: int, reason: string)
    | End(f: int, n: int)
    | Done(f: int, test: string, n: int)

  const TIMEOUT := "timeout"
  const GOEXIT := "goexit"
  const ABORT := "abort"
  const POISONED := "poisoned"

  lemma ReasonsDiffer()
    ensures |TIMEOUT| == 7 && |GOEXIT| == 6 && |ABORT| == 5 && |POISONED| == 8
  {}

  predicate LowerHex(s: string) {
    forall k :: 0 <= k < |s| ==> '0' <= s[k] <= '9' || 'a' <= s[k] <= 'f'
  }

  predicate IsHash(s: string) {
    |s| == 64 && LowerHex(s)
  }

  /** The checks an observation record must pass, whatever its position. */
  predicate Shaped(display: nat, o: Obs) {
    && IsHash(o.hash)
    && 0 <= o.length <= MAX_ENCODING_BYTES
    && |o.shown| <= display
    && |o.shown| <= o.length
    && (o.length <= display ==> |o.shown| == o.length)
  }

  /** One observed input of the normalized stream. */
  datatype Record = Record(index: int, call: string, hash: string, length: int, display: string,
                           panicked: bool, unstable: bool, truncated: bool)

  /** `Reading` is the empty state string a function has while its records are read. */
  datatype State = Reading | Complete | Stopped | Interrupted | NotStarted

  datatype FunctionStream = FunctionStream(test: string, planned: int, state: State, stop: string,
                                           at: int, atCall: string, records: seq<Record>)

  datatype Stream = Stream(display: nat, runner: Runner, functions: seq<FunctionStream>)

  /** Redaction, as the packages around the stream provide it. */
  datatype Redaction = Redaction(redact: string -> string, fixed: string -> bool) {
    /** Redaction keeps text valid. */
    ghost predicate KeepsUtf8() {
      forall s :: Valid(s) ==> Valid(redact(s))
    }
  }

  const MARKER := "[REDACTED]"

  /** Record.Whole: nothing was cut, and no redaction marker shows. */
  predicate Whole(r: Record) {
    !r.truncated && r.length == |r.display| && Text.Index(r.display, MARKER).None?
  }

  /** A byte of a string as encoding/json writes it, HTML escapes included. */
  function MarshalByte(c: char): string {
    if c == '"' || c == '\\' then ['\\', c]
    else if c == '\n' then "\\n"
    else if c == '\r' then "\\r"
    else if c == '\t' then "\\t"
    else if c == '\U{8}' then "\\b"
    else if c == '\U{c}' then "\\f"
    else if c < ' ' || c == '<' || c == '>' || c == '&' then ['\\', 'u', '0', '0', HexDigit(c as int / 16), HexDigit(c as int % 16)]
    else [c]
  }

  function MarshalText(s: string): string {
    if s == [] then []
    else if |s| >= 3 && s[0] == '\U{e2}' && s[1] == '\U{80}' && (s[2] == '\U{a8}' || s[2] == '\U{a9}') then
      "\\u202" + [if s[2] == '\U{a8}' then '8' else '9'] + MarshalText(s[3..])
    else MarshalByte(s[0]) + MarshalText(s[1..])
  }

  /** json.Marshal of a valid text. */
  function Marshal(s: string): (r: string)
    ensures |r| >= 2
  {
    "\"" + MarshalText(s) + "\""
  }

  /** displayValue: redact, cut to the bound, replace by the marker when escaping could undo it. */
  function DisplayValue(red: Redaction, shown: string, limit: nat): (d: string)
    ensures limit >= MIN_DISPLAY_BYTES ==> |d| <= limit
    ensures red.KeepsUtf8() && Valid(shown) ==> Valid(d)
  {
    var d := Cut(red.redact(shown), limit);
    if red.fixed(Marshal(d)) then d
    else
      AsciiIsValid(MARKER);
      MARKER
  }
}

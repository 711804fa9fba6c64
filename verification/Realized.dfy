/** The accepted streams are of evaluations. */
module Realized {
  import opened Utf8
  import opened Json
  import opened Records
  import opened Emitter
  import opened Automaton
  import opened Language
  import opened Normalizer
  import opened Capture
  import opened EndToEnd
  import opened Likeness
  import Wire

  // ----- observations of an encoding -----

  /** An encoding that the sandbox can give. */
  predicate Given(h: Harness, enc: string) {
    |enc| <= MAX_ENCODING_BYTES && Valid(enc) && (h.runner.Framed() ==> Ascii(enc))
  }

  predicate Shows(h: Harness, hash: string -> string, o: Obs, enc: string) {
    Given(h, enc) && o.hash == hash(enc) && o.length == |enc| && o.shown == Cut(enc, h.display)
  }

  /** The hash, the length and the display are those of one encoding. */
  ghost predicate Genuine(h: Harness, hash: string -> string, o: Obs) {
    exists enc :: Shows(h, hash, o, enc)
  }

  ghost function Genuinely(h: Harness, hash: string -> string): Obs -> bool {
    (o: Obs) => Genuine(h, hash, o)
  }

  lemma ObserveIsGenuine(h: Harness, hash: string -> string, first: Outcome, second: Outcome)
    requires OutcomeFits(h, first) && first.state.Finished?
    ensures Genuine(h, hash, Observe(hash, h.display, first, second))
  {
    hide Valid, Repair;
    RepairOfValid(first.enc);
    assert Shows(h, hash, Observe(hash, h.display, first, second), first.enc);
  }

  // ----- evaluations for given records -----

  /** An encoding of the length the observation tells: its own, when there is one. */
  ghost function TextOf(h: Harness, hash: string -> string, o: Obs): (enc: string)
    requires 0 <= o.length <= MAX_ENCODING_BYTES
    ensures Given(h, enc) && |enc| == o.length && (Genuine(h, hash, o) ==> Shows(h, hash, o, enc))
  {
    if Genuine(h, hash, o) then var enc :| Shows(h, hash, o, enc); enc
    else
      AsciiIsValid(seq(o.length, _ => 'x'));
      seq(o.length, _ => 'x')
  }

  ghost function FirstOf(h: Harness, hash: string -> string, r: CallResult): Outcome
    requires Producible(h, r)
  {
    match r
    case Observed(o) => Outcome(Finished, TextOf(h, hash, o), o.truncated, o.panicked)
    case Broke(how) => Outcome(how, "", false, false)
  }

  ghost function SecondOf(h: Harness, hash: string -> string, r: CallResult): Outcome
    requires Producible(h, r)
  {
    match r
    case Observed(o) => Outcome(Finished, TextOf(h, hash, o), o.truncated != o.unstable, o.panicked)
    case Broke(how) => Outcome(how, "", false, false)
  }

  /** What these evaluations lead to. */
  ghost function Made(h: Harness, hash: string -> string, r: CallResult): CallResult
    requires Producible(h, r)
  {
    Judge(hash, h.display, FirstOf(h, hash, r), SecondOf(h, hash, r))
  }

  lemma MadeIsSame(h: Harness, hash: string -> string, r: CallResult)
    requires Producible(h, r)
    ensures OutcomeFits(h, FirstOf(h, hash, r)) && OutcomeFits(h, SecondOf(h, hash, r))
    ensures SameResult(Genuinely(h, hash), r, Made(h, hash, r))
  {
    hide Valid, Repair, Genuine, Cut;
    if r.Observed? {
      RepairOfValid(TextOf(h, hash, r.obs));
      ObserveIsGenuine(h, hash, FirstOf(h, hash, r), SecondOf(h, hash, r));
    }
  }

  // ----- a launch for given results -----

  ghost function LaunchOf(h: Harness, hash: string -> string, runs: seq<seq<CallResult>>): Launch
    requires RunsFit(h, 1, runs)
  {
    Launch(seq(|runs|, k requires 0 <= k < |runs| => Firsts(h, hash, runs[k], h.Planned(1 + k))),
           seq(|runs|, k requires 0 <= k < |runs| => Seconds(h, hash, runs[k], h.Planned(1 + k))))
  }

  ghost function Firsts(h: Harness, hash: string -> string, rs: seq<CallResult>, n: int): (os: seq<Outcome>)
    requires ResultsFit(h, rs, n)
    ensures |os| == n && forall i :: 0 <= i < n ==> os[i] == FirstOf(h, hash, rs[i])
  {
    seq(|rs|, i requires 0 <= i < |rs| => FirstOf(h, hash, rs[i]))
  }

  ghost function Seconds(h: Harness, hash: string -> string, rs: seq<CallResult>, n: int): (os: seq<Outcome>)
    requires ResultsFit(h, rs, n)
    ensures |os| == n && forall i :: 0 <= i < n ==> os[i] == SecondOf(h, hash, rs[i])
  {
    seq(|rs|, i requires 0 <= i < |rs| => SecondOf(h, hash, rs[i]))
  }

  lemma LaunchFits(h: Harness, hash: string -> string, runs: seq<seq<CallResult>>)
    requires RunsFit(h, 1, runs)
    ensures var l := LaunchOf(h, hash, runs); l.Fits(h) && SameRuns(Genuinely(h, hash), runs, l.Results(h, hash))
  {
    hide OutcomeFits, FirstOf, SecondOf, SameResult, Producible, Judge;
    var l := LaunchOf(h, hash, runs);
    forall k | 0 <= k < |runs|
      ensures |l.first[k]| == |l.second[k]| == |h.tests[k].inputs|
      ensures forall i :: 0 <= i < |l.first[k]| ==> OutcomeFits(h, l.first[k][i]) && OutcomeFits(h, l.second[k][i])
      ensures SameResults(Genuinely(h, hash), runs[k], Judges(hash, h.display, l.first[k], l.second[k]))
    {
      assert ResultsFit(h, runs[k], h.Planned(1 + k));
      ResultsMade(h, hash, runs[k], h.Planned(1 + k));
    }
  }

  lemma ResultsMade(h: Harness, hash: string -> string, rs: seq<CallResult>, n: int)
    requires ResultsFit(h, rs, n)
    ensures var first, second := Firsts(h, hash, rs, n), Seconds(h, hash, rs, n);
            && SameResults(Genuinely(h, hash), rs, Judges(hash, h.display, first, second))
            && forall i :: 0 <= i < n ==> OutcomeFits(h, first[i]) && OutcomeFits(h, second[i])
  {
    hide OutcomeFits, FirstOf, SecondOf, SameResult, Producible, Judge;
    forall i | 0 <= i < n
      ensures OutcomeFits(h, FirstOf(h, hash, rs[i])) && OutcomeFits(h, SecondOf(h, hash, rs[i]))
      ensures SameResult(Genuinely(h, hash), rs[i], Judge(hash, h.display, FirstOf(h, hash, rs[i]), SecondOf(h, hash, rs[i])))
    {
      MadeIsSame(h, hash, rs[i]);
    }
  }

  // ----- accepted records -----

  /** The launch may write these records first, and whatever follows. */
  ghost predicate Begins(h: Harness, hash: string -> string, launch: Launch, ls: seq<Line>)
    requires h.Renderable() && Hashes(hash)
  {
    launch.Fits(h) && (ResultsFitHarness(h, hash, launch); ls <= Run(h, launch.Results(h, hash)))
  }

  /**
   Every accepted stream has the records of two evaluations of every input: some launch writes the
   same records in the same order, but for the hash and the display of an observation for which
   no encoding exists.
   */
  lemma AcceptedIsRealized(h: Harness, red: Redaction, hash: string -> string, ls: seq<Line>) returns (launch: Launch, written: seq<Line>)
    requires h.Renderable() && Hashes(hash) && Accepts(h, red, ls)
    ensures Begins(h, hash, launch, written) && SameLines(Genuinely(h, hash), ls, written)
  {
    hide SameLine, SameRuns, Launch.Fits;
    var runs := AcceptedIsPrefix(h, red, ls);
    launch := LaunchOf(h, hash, runs);
    LaunchFits(h, hash, runs);
    ResultsFitHarness(h, hash, launch);
    SameRun(h, Genuinely(h, hash), 1, false, runs, launch.Results(h, hash));
    written := Run(h, launch.Results(h, hash))[..|ls|];
    SamePrefix(Genuinely(h, hash), Run(h, runs), Run(h, launch.Results(h, hash)), ls);
  }

  lemma LaunchIsGenuine(h: Harness, hash: string -> string, launch: Launch)
    requires h.Renderable() && Hashes(hash) && launch.Fits(h)
    ensures SameRuns(Genuinely(h, hash), launch.Results(h, hash), launch.Results(h, hash))
  {
    hide Genuine, OutcomeFits, Observe;
    var runs := launch.Results(h, hash);
    forall k, i | 0 <= k < |runs| && 0 <= i < |runs[k]|
      ensures SameResult(Genuinely(h, hash), runs[k][i], runs[k][i])
    {
      var x, y := launch.first[k][i], launch.second[k][i];
      assert OutcomeFits(h, x) && runs[k][i] == Judge(hash, h.display, x, y);
      if x.state.Finished? {
        ObserveIsGenuine(h, hash, x, y);
      }
    }
  }

  /**
   The accepted streams whose observations are those of encodings are exactly the nonempty
   prefixes, cut at a line, of what some launch of the harness writes.
   */
  lemma AcceptedIffWritten(h: Harness, red: Redaction, hash: string -> string, ls: seq<Line>)
    requires h.Renderable() && Hashes(hash)
    ensures Accepts(h, red, ls) && AllGood(Genuinely(h, hash), ls) <==> ls != [] && exists launch :: Begins(h, hash, launch, ls)
  {
    hide SameLines, AllGood, SameRuns, Launch.Fits;
    if Accepts(h, red, ls) && AllGood(Genuinely(h, hash), ls) {
      var launch, written := AcceptedIsRealized(h, red, hash, ls);
      GoodIsSame(Genuinely(h, hash), ls, written);
    }
    if ls != [] && exists launch :: Begins(h, hash, launch, ls) {
      var launch :| Begins(h, hash, launch, ls);
      ResultsFitHarness(h, hash, launch);
      var runs := launch.Results(h, hash);
      assert RunsFit(h, 1, runs) && ls <= Run(h, runs);
      AcceptedIffPrefixOfRun(h, red, ls);
      LaunchIsGenuine(h, hash, launch);
      SameRun(h, Genuinely(h, hash), 1, false, runs, runs);
      SamePrefix(Genuinely(h, hash), Run(h, runs), Run(h, runs), ls);
      assert ls == Run(h, runs)[..|ls|];
      GoodIsSame(Genuinely(h, hash), ls, ls);
    }
  }

  // ----- accepted bytes -----

  /** The launch may write these bytes, and die at the end of a line. */
  ghost predicate Writes(h: Harness, hash: string -> string, launch: Launch, payload: string)
    requires h.Renderable() && Hashes(hash)
  {
    exists ls :: ls != [] && Begins(h, hash, launch, ls) && payload == Wire.File(ls)
  }

  /** The payload holds records whose observations are those of encodings. */
  ghost predicate GenuineFile(h: Harness, hash: string -> string, payload: string) {
    exists ls :: AllWellFormed(ls) && payload == Wire.File(ls) && AllGood(Genuinely(h, hash), ls)
  }

  lemma WrittenWellFormed(h: Harness, hash: string -> string, launch: Launch, ls: seq<Line>)
    requires Rendered(h) && Hashes(hash) && Begins(h, hash, launch, ls)
    ensures AllWellFormed(ls)
  {
    hide Launch.Fits, Wire.WellFormed;
    ResultsFitHarness(h, hash, launch);
    RunLinesWellFormed(h, 1, false, launch.Results(h, hash));
    assert ls <= Run(h, launch.Results(h, hash));
  }

  /** Byte for byte: the accepted payloads with such observations are exactly those that some launch can write. */
  lemma AcceptedIffBytes(h: Harness, red: Redaction, hash: string -> string, payload: string)
    requires Rendered(h) && Hashes(hash)
    ensures Normal(h, red, payload).Some? && GenuineFile(h, hash, payload) <==> exists launch :: Writes(h, hash, launch, payload)
  {
    hide Begins, AllGood, Normal, Wire.File;
    if Normal(h, red, payload).Some? && GenuineFile(h, hash, payload) {
      var ls :| AllWellFormed(ls) && payload == Wire.File(ls) && AllGood(Genuinely(h, hash), ls);
      PayloadNotEmpty(h, red, ls);
      NormalOfFile(h, red, ls);
      AcceptedIffWritten(h, red, hash, ls);
      var launch :| Begins(h, hash, launch, ls);
      assert Writes(h, hash, launch, payload);
    }
    if exists launch :: Writes(h, hash, launch, payload) {
      var launch :| Writes(h, hash, launch, payload);
      var ls :| ls != [] && Begins(h, hash, launch, ls) && payload == Wire.File(ls);
      WrittenWellFormed(h, hash, launch, ls);
      AcceptedIffWritten(h, red, hash, ls);
      NormalOfFile(h, red, ls);
    }
  }

  lemma PayloadNotEmpty(h: Harness, red: Redaction, ls: seq<Line>)
    requires h.Renderable() && Normal(h, red, Wire.File(ls)).Some?
    ensures ls != []
  {}

  /** Every accepted payload, genuine or not, is the file of the records of a launch in that sense. */
  lemma BytesAreRealized(h: Harness, red: Redaction, hash: string -> string, payload: string)
    returns (launch: Launch, ls: seq<Line>, written: seq<Line>)
    requires h.Renderable() && Hashes(hash) && Normal(h, red, payload).Some?
    ensures payload == Wire.File(ls) && Begins(h, hash, launch, written) && SameLines(Genuinely(h, hash), ls, written)
  {
    hide Begins, SameLines, Normal, Wire.File;
    ls := AcceptedIsFile(h, red, payload);
    launch, written := AcceptedIsRealized(h, red, hash, ls);
  }
}

/**
 The observation harness inside the container: the bounded encoder, one evaluation of an input, and the
 run of every test of one process, for every behaviour of the code under test.
 */
module Emitter {
  import opened Utf8
  import opened Json
  import opened Records

  // ----- the bounded encoder -----

  /** What an encoder with `limit` bytes keeps of the pieces written to it: a prefix of whole pieces. */
  function Kept(limit: nat, used: nat, pieces: seq<string>): (n: nat)
    ensures n <= |pieces|
    decreases |pieces|
  {
    if pieces == [] || used + |pieces[0]| > limit then 0
    else 1 + Kept(limit, used + |pieces[0]|, pieces[1..])
  }

  function Concat(pieces: seq<string>): string {
    if pieces == [] then "" else pieces[0] + Concat(pieces[1..])
  }

  lemma {:induction false} ConcatSnoc(pieces: seq<string>, last: string)
    ensures Concat(pieces + [last]) == Concat(pieces) + last
  {
    if pieces == [] {
      assert [last][1..] == [];
    } else {
      assert (pieces + [last])[1..] == pieces[1..] + [last];
      ConcatSnoc(pieces[1..], last);
    }
  }

  class Encoder {
    var b: string
    const limit: nat
    var cut: bool
    ghost var pieces: seq<string>

    /** The text is the longest run of whole pieces that fits, and `cut` says that one did not. */
    ghost predicate Valid()
      reads this
    {
      && b == Concat(pieces[..Kept(limit, 0, pieces)])
      && |b| <= limit
      && (cut <==> Kept(limit, 0, pieces) < |pieces|)
    }

    constructor (limit: nat)
      ensures Valid() && b == "" && !cut && pieces == [] && this.limit == limit
    {
      b, cut, pieces := "", false, [];
      this.limit := limit;
    }

    method W(s: string)
      requires Valid()
      modifies this
      ensures Valid() && pieces == old(pieces) + [s]
      ensures old(cut) ==> cut && b == old(b)
    {
      ghost var before := pieces;
      KeptSnoc(limit, 0, before, s);
      pieces := pieces + [s];
      assert pieces[..|before|] == before;
      if cut {
        assert pieces[..Kept(limit, 0, pieces)] == before[..Kept(limit, 0, before)];
        return;
      }
      assert before[..|before|] == before;
      KeptLength(limit, 0, before);
      if |b| + |s| > limit {
        cut := true;
        assert pieces[..Kept(limit, 0, pieces)] == before;
        return;
      }
      ConcatSnoc(before, s);
      assert pieces[..|pieces|] == pieces;
      b := b + s;
    }
  }

  lemma {:induction false} KeptLength(limit: nat, used: nat, pieces: seq<string>)
    requires Kept(limit, used, pieces) == |pieces|
    ensures used <= limit ==> used + |Concat(pieces)| <= limit
    decreases |pieces|
  {
    if pieces != [] {
      KeptLength(limit, used + |pieces[0]|, pieces[1..]);
    }
  }

  lemma {:induction false} KeptSnoc(limit: nat, used: nat, pieces: seq<string>, last: string)
    ensures Kept(limit, used, pieces) < |pieces| ==> Kept(limit, used, pieces + [last]) == Kept(limit, used, pieces)
    ensures Kept(limit, used, pieces) == |pieces| ==>
              Kept(limit, used, pieces + [last]) ==
              if used + |Concat(pieces)| + |last| <= limit then |pieces| + 1 else |pieces|
    decreases |pieces|
  {
    if pieces == [] {
      assert pieces + [last] == [last];
    } else {
      assert (pieces + [last])[1..] == pieces[1..] + [last];
      KeptSnoc(limit, used + |pieces[0]|, pieces[1..], last);
    }
  }

  // ----- one input: two evaluations and their record -----

  datatype CallState = Finished | TimedOut | Exited | Aborted

  /** How one evaluation ended; the other fields matter only when it finished. */
  datatype Outcome = Outcome(state: CallState, enc: string, cut: bool, panicked: bool)

  /** What the pair of evaluations of one input leads to: a record, or the end of the function. */
  datatype CallResult = Observed(obs: Obs) | Broke(how: CallState)

  function Reason(how: CallState): (x: string)
    ensures x != POISONED
  {
    ReasonsDiffer();
    match how
    case TimedOut => TIMEOUT
    case Exited => GOEXIT
    case _ => ABORT
  }

  /** The state that decides: the first evaluation's, or the second's once the first finished. */
  function Decisive(first: Outcome, second: Outcome): CallState {
    if first.state.Finished? then second.state else first.state
  }

  function Observe(hash: string -> string, display: nat, first: Outcome, second: Outcome): Obs {
    Obs(hash(first.enc), |first.enc|, Cut(Repair(first.enc), display), first.panicked,
        first.enc != second.enc || first.cut != second.cut, first.cut)
  }

  function Judge(hash: string -> string, display: nat, first: Outcome, second: Outcome): CallResult {
    if Decisive(first, second).Finished? then Observed(Observe(hash, display, first, second))
    else Broke(Decisive(first, second))
  }

  function Judges(hash: string -> string, display: nat, first: seq<Outcome>, second: seq<Outcome>): (rs: seq<CallResult>)
    requires |first| == |second|
    ensures |rs| == |first|
    ensures forall k :: 0 <= k < |rs| ==> rs[k] == Judge(hash, display, first[k], second[k])
  {
    seq(|first|, k requires 0 <= k < |first| => Judge(hash, display, first[k], second[k]))
  }

  // ----- the lines of a run -----

  /** The record of input k: an observation, or the stop that ends the function. */
  function ResultLine(f: int, k: nat, r: CallResult): Line {
    match r
    case Observed(o) => Seen(f, k, o)
    case Broke(how) => Stop(f, k, Reason(how))
  }

  /** The records of inputs k, k+1, ... of function f, whose results are `rs`. */
  function InputLines(f: int, k: nat, rs: seq<CallResult>): (ls: seq<Line>)
    ensures ls != []
    decreases |rs|
  {
    if rs == [] then [End(f, k)]
    else [ResultLine(f, k, rs[0])] + (if rs[0].Broke? then [] else InputLines(f, k + 1, rs[1..]))
  }

  function BodyLines(f: int, k: nat, poisoned: bool, rs: seq<CallResult>): (ls: seq<Line>)
    ensures ls != []
  {
    if poisoned then [Stop(f, 0, POISONED)] else InputLines(f, k, rs)
  }

  /** The observations written before the function ended. */
  function Observations(poisoned: bool, rs: seq<CallResult>): (n: nat)
    ensures n <= |rs|
    decreases |rs|
  {
    if poisoned || rs == [] || rs[0].Broke? then 0 else 1 + Observations(poisoned, rs[1..])
  }

  /** A timed-out evaluation poisons the functions that follow in the same process. */
  function Poisons(poisoned: bool, rs: seq<CallResult>): bool
    decreases |rs|
  {
    if poisoned then true
    else if rs == [] then false
    else if rs[0].Broke? then rs[0].how.TimedOut?
    else Poisons(poisoned, rs[1..])
  }

  function OpenLines(h: Harness, f: int): seq<Line>
    requires h.Has(f)
  {
    (if h.runner.Framed() then [Head(f, h.suffix, h.Name(f))] else []) + [Begin(f, h.Planned(f))]
  }

  function DoneLines(h: Harness, f: int, observed: int): seq<Line>
    requires h.Has(f)
  {
    if h.runner.Framed() then [Done(f, h.Name(f), observed)] else []
  }

  function TestLines(h: Harness, f: int, poisoned: bool, rs: seq<CallResult>): (ls: seq<Line>)
    requires h.Has(f)
    ensures |ls| >= 2
  {
    OpenLines(h, f) + BodyLines(f, 0, poisoned, rs) + DoneLines(h, f, Observations(poisoned, rs))
  }

  /** Everything a process writes from function f on, when nothing ends it. */
  function RunLines(h: Harness, f: int, poisoned: bool, runs: seq<seq<CallResult>>): seq<Line>
    requires f >= 1 && f + |runs| == |h.tests| + 1
    decreases |runs|
  {
    if runs == [] then []
    else TestLines(h, f, poisoned, runs[0]) + RunLines(h, f + 1, Poisons(poisoned, runs[0]), runs[1..])
  }

  // ----- results a harness can produce -----

  predicate Producible(h: Harness, r: CallResult) {
    match r
    case Observed(o) => Shaped(h.display, o)
    case Broke(how) => !how.Finished? && (h.runner.Framed() ==> !how.Exited?)
  }

  predicate ResultsFit(h: Harness, rs: seq<CallResult>, count: int) {
    |rs| == count && forall k :: 0 <= k < |rs| ==> Producible(h, rs[k])
  }

  /** The results of functions f, f+1, ... of one process. */
  predicate RunsFit(h: Harness, f: int, runs: seq<seq<CallResult>>) {
    && f >= 1
    && f + |runs| == |h.tests| + 1
    && forall k :: 0 <= k < |runs| ==> ResultsFit(h, runs[k], h.Planned(f + k))
  }

  /** Encodings are bounded valid UTF-8, printable ASCII for the script runners. */
  predicate OutcomeFits(h: Harness, o: Outcome) {
    && (o.state.Finished? ==> |o.enc| <= MAX_ENCODING_BYTES && Valid(o.enc))
    && (h.runner.Framed() ==> !o.state.Exited? && (o.state.Finished? ==> Ascii(o.enc)))
  }

  /** A hash has the shape of a SHA-256 in hexadecimal; nothing else is assumed of it. */
  ghost predicate Hashes(hash: string -> string) {
    forall s :: IsHash(hash(s))
  }

  lemma JudgeProducible(h: Harness, hash: string -> string, first: Outcome, second: Outcome)
    requires Hashes(hash) && OutcomeFits(h, first) && OutcomeFits(h, second)
    ensures Producible(h, Judge(hash, h.display, first, second))
  {
    hide Valid, Repair;
    assert IsHash(hash(first.enc));
    RepairOfValid(first.enc);
  }

  // ----- the process -----

  lemma Appended(before: seq<Line>, opening: seq<Line>, body: seq<Line>, closing: seq<Line>)
    ensures before + opening + body + closing == before + (opening + body + closing)
  {}

  /** The results from input k on, by the result of that input. */
  lemma ResultsFrom(f: int, k: nat, rs: seq<CallResult>)
    requires k < |rs|
    ensures InputLines(f, k, rs[k..])
         == [ResultLine(f, k, rs[k])] + if rs[k].Broke? then [] else InputLines(f, k + 1, rs[k + 1..])
    ensures Poisons(false, rs[k..]) == if rs[k].Broke? then rs[k].how.TimedOut? else Poisons(false, rs[k + 1..])
    ensures Observations(false, rs[k..]) == if rs[k].Broke? then 0 else 1 + Observations(false, rs[k + 1..])
  {
    assert rs[k..][0] == rs[k] && rs[k..][1..] == rs[k + 1..];
  }

  lemma ResultsEnd(f: int, rs: seq<CallResult>)
    ensures InputLines(f, |rs|, rs[|rs|..]) == [End(f, |rs|)]
    ensures !Poisons(false, rs[|rs|..]) && Observations(false, rs[|rs|..]) == 0
  {}

  /** One process of a harness: the poisoned flag and the observation file, as lines. */
  class Process {
    var poisoned: bool
    var file: seq<Line>

    constructor ()
      ensures !poisoned && file == []
    {
      poisoned, file := false, [];
    }

    /**
     ZSPFZ_run: evaluates every input of function f twice and appends its records, framed by
     head and done records for a script runner. `first` and `second` are the evaluations.
     */
    method Run(h: Harness, f: int, hash: string -> string, first: seq<Outcome>, second: seq<Outcome>)
      requires h.Has(f) && |first| == |second| == h.Planned(f)
      modifies this
      ensures var rs := Judges(hash, h.display, first, second);
              && file == old(file) + TestLines(h, f, old(poisoned), rs)
              && poisoned == Poisons(old(poisoned), rs)
    {
      ghost var rs := Judges(hash, h.display, first, second);
      ghost var body := BodyLines(f, 0, poisoned, rs);
      Open(h, f, |first|);
      ghost var begun := file;
      var observed := 0;
      if poisoned {
        file := file + [Stop(f, 0, POISONED)];
      } else {
        observed := Evaluate(h, f, hash, first, second);
      }
      assert file == begun + body;
      if h.runner.Framed() {
        file := file + [Done(f, h.Name(f), observed)];
      }
      assert file == begun + body + DoneLines(h, f, observed);
      Appended(old(file), OpenLines(h, f), body, DoneLines(h, f, observed));
    }

    /** The records that open a function. */
    method Open(h: Harness, f: int, n: nat)
      requires h.Has(f) && n == h.Planned(f)
      modifies this`file
      ensures file == old(file) + OpenLines(h, f)
    {
      if h.runner.Framed() {
        file := file + [Head(f, h.suffix, h.Name(f))];
      }
      file := file + [Begin(f, n)];
    }

    /** The two evaluations of one input, and its record. */
    method EvaluateInput(h: Harness, f: int, k: nat, hash: string -> string, first: Outcome, second: Outcome)
      returns (stopped: bool)
      requires !poisoned
      modifies this
      ensures var r := Judge(hash, h.display, first, second);
              && file == old(file) + [ResultLine(f, k, r)]
              && stopped == r.Broke?
              && poisoned == (r.Broke? && r.how.TimedOut?)
    {
      var state := first.state;
      if state.Finished? {
        state := second.state;
      }
      if !state.Finished? {
        var reason := ABORT;
        if state.TimedOut? {
          reason, poisoned := TIMEOUT, true;
        } else if state.Exited? {
          reason := GOEXIT;
        }
        file := file + [Stop(f, k, reason)];
        return true;
      }
      var unstable := first.enc != second.enc || first.cut != second.cut;
      file := file + [Seen(f, k, Obs(hash(first.enc), |first.enc|, Cut(Repair(first.enc), h.display), first.panicked, unstable, first.cut))];
      return false;
    }

    /** The loop over the inputs of a function that is not poisoned. */
    method Evaluate(h: Harness, f: int, hash: string -> string, first: seq<Outcome>, second: seq<Outcome>)
      returns (observed: nat)
      requires h.Has(f) && |first| == |second| == h.Planned(f)
      requires !poisoned
      modifies this
      ensures var rs := Judges(hash, h.display, first, second);
              && file == old(file) + InputLines(f, 0, rs)
              && poisoned == Poisons(false, rs)
              && observed == Observations(false, rs)
    {
      hide InputLines, Poisons, Observations, Judge, ResultLine;
      ghost var rs := Judges(hash, h.display, first, second);
      observed := 0;
      assert rs[0..] == rs;
      for k := 0 to |first|
        invariant observed == k && !poisoned
        invariant file + InputLines(f, k, rs[k..]) == old(file) + InputLines(f, 0, rs)
        invariant Poisons(false, rs) == Poisons(false, rs[k..])
        invariant Observations(false, rs) == k + Observations(false, rs[k..])
      {
        ResultsFrom(f, k, rs);
        ghost var before := file;
        var stopped := EvaluateInput(h, f, k, hash, first[k], second[k]);
        if stopped {
          assert file + [] == before + InputLines(f, k, rs[k..]);
          return;
        }
        observed := observed + 1;
        assert file + InputLines(f, k + 1, rs[k + 1..]) == before + InputLines(f, k, rs[k..]);
      }
      ResultsEnd(f, rs);
      file := file + [End(f, |first|)];
    }
  }
}

/** Rendering a harness, and halving it. */
module Rendering {
  import opened Json
  import opened Records
  import opened Corpus
  import Channel

  const MAX_HALVINGS: nat := 3

  datatype Failure = TooLarge | NoInput | Broken
  datatype Rendered = Rendered(inputs: seq<seq<Input>>, display: nat)
  datatype Result = Ok(harness: Rendered) | Failed(why: Failure)

  /** What the source text of a harness turns out to be: how many bytes, and whether it parses. */
  datatype Source = Fits | TooLong | Unparsable

  /** One package to render: its targets, the channel, and the text rendered for some inputs. */
  datatype Job = Job(schemes: seq<Scheme>, runner: Runner, limit: int, source: (seq<seq<Input>>, nat) -> Source) {
    predicate Sound() {
      schemes != [] && forall k :: 0 <= k < |schemes| ==> schemes[k].Sound()
    }
  }

  function Corpora(j: Job, budgets: seq<nat>, n: nat): (r: seq<seq<Input>>)
    requires j.Sound() && n <= |j.schemes| == |budgets|
    ensures |r| == n
  {
    if n == 0 then [] else Corpora(j, budgets, n - 1) + [j.schemes[n - 1].Corpus(budgets[n - 1])]
  }

  function Count(inputs: seq<seq<Input>>): nat {
    if inputs == [] then 0 else Count(inputs[..|inputs| - 1]) + |inputs[|inputs| - 1]|
  }

  predicate AnyEmpty(inputs: seq<seq<Input>>) {
    [] in inputs
  }

  lemma {:induction false} CountPositive(inputs: seq<seq<Input>>)
    requires inputs != [] && !AnyEmpty(inputs)
    ensures Count(inputs) > 0
  {
    assert inputs[|inputs| - 1] in inputs;
  }

  /** renderOnce, and its counterparts for scripts and for Python. */
  function Once(j: Job, budgets: seq<nat>): Result
    requires j.Sound() && |j.schemes| == |budgets|
  {
    var inputs := Corpora(j, budgets, |budgets|);
    if AnyEmpty(inputs) then Failed(NoInput)
    else
      CountPositive(inputs);
      match Channel.DisplayBound(j.limit, j.runner, |inputs|, Count(inputs))
      case None => Failed(TooLarge)
      case Some(display) =>
        match j.source(inputs, display)
        case Fits => Ok(Rendered(inputs, display))
        case TooLong => Failed(TooLarge)
        case Unparsable => Failed(Broken)
  }

  method RenderOnce(j: Job, budgets: seq<nat>) returns (r: Result)
    requires j.Sound() && |j.schemes| == |budgets|
    ensures r == Once(j, budgets)
  {
    var inputs: seq<seq<Input>> := [];
    var records := 0;
    for i := 0 to |budgets|
      invariant inputs == Corpora(j, budgets, i) && records == Count(inputs) && !AnyEmpty(inputs)
    {
      var corpus := CorpusWith(j.schemes[i], budgets[i]);
      if corpus == [] {
        EmptyStays(j, budgets, i);
        return Failed(NoInput);
      }
      assert (inputs + [corpus])[..i] == inputs;
      inputs := inputs + [corpus];
      records := records + |corpus|;
    }
    CountPositive(inputs);
    var display := Channel.DisplayBound(j.limit, j.runner, |inputs|, records);
    if display.None? {
      return Failed(TooLarge);
    }
    var text := j.source(inputs, display.value);
    match text {
      case Fits => return Ok(Rendered(inputs, display.value));
      case TooLong => return Failed(TooLarge);
      case Unparsable => return Failed(Broken);
    }
  }

  lemma {:induction false} CorporaAt(j: Job, budgets: seq<nat>, n: nat, i: nat)
    requires j.Sound() && i < n <= |j.schemes| == |budgets|
    ensures Corpora(j, budgets, n)[i] == j.schemes[i].Corpus(budgets[i])
  {
    if i < n - 1 {
      CorporaAt(j, budgets, n - 1, i);
    }
  }

  lemma EmptyStays(j: Job, budgets: seq<nat>, i: nat)
    requires j.Sound() && i < |j.schemes| == |budgets| && j.schemes[i].Corpus(budgets[i]) == []
    ensures AnyEmpty(Corpora(j, budgets, |budgets|))
  {
    CorporaAt(j, budgets, |budgets|, i);
    assert Corpora(j, budgets, |budgets|)[i] == [];
  }

  // ----- halving -----

  function Half(n: nat): nat {
    if n / 2 > 1 then n / 2 else 1
  }

  function Halved(budgets: seq<nat>, times: nat): (r: seq<nat>)
    ensures |r| == |budgets|
  {
    if times == 0 then budgets
    else
      var before := Halved(budgets, times - 1);
      seq<nat>(|budgets|, k requires 0 <= k < |budgets| => Half(before[k]))
  }

  lemma {:induction false} HalvedShrinks(budgets: seq<nat>, times: nat)
    requires forall k :: 0 <= k < |budgets| ==> budgets[k] >= 1
    ensures forall k :: 0 <= k < |budgets| ==> 1 <= Halved(budgets, times)[k] <= budgets[k]
  {
    if times > 0 {
      HalvedShrinks(budgets, times - 1);
    }
  }

  /** The budget of a target: at least one input. */
  function Budgets(planned: seq<nat>): (r: seq<nat>)
    ensures |r| == |planned|
  {
    seq<nat>(|planned|, k requires 0 <= k < |planned| => if planned[k] > 1 then planned[k] else 1)
  }

  /**
   Render, RenderScript and RenderPython: at most four attempts, each after the first because the
   one before was too large; the last one is the outcome.
   */
  method Render(j: Job, planned: seq<nat>) returns (r: Result, attempts: nat)
    requires j.Sound() && |j.schemes| == |planned|
    ensures 1 <= attempts <= MAX_HALVINGS + 1
    ensures r == Once(j, Halved(Budgets(planned), attempts - 1))
    ensures forall k :: 0 <= k < attempts - 1 ==> Once(j, Halved(Budgets(planned), k)) == Failed(TooLarge)
    ensures r == Failed(TooLarge) ==> attempts == MAX_HALVINGS + 1
  {
    hide Once;
    var budgets := Budgets(planned);
    r, attempts := Failed(TooLarge), 0;
    while attempts <= MAX_HALVINGS
      invariant 0 <= attempts <= MAX_HALVINGS + 1 && budgets == Halved(Budgets(planned), attempts)
      invariant attempts > 0 ==> r == Failed(TooLarge)
      invariant forall k :: 0 <= k < attempts ==> Once(j, Halved(Budgets(planned), k)) == Failed(TooLarge)
    {
      r := RenderOnce(j, budgets);
      attempts := attempts + 1;
      if r != Failed(TooLarge) {
        return;
      }
      budgets := seq<nat>(|budgets|, k requires 0 <= k < |budgets| => Half(budgets[k]));
    }
  }

  /**
   What a rendered harness holds, after any number of halvings: for every target a non-empty prefix
   of its planned inputs, with a display bound for which the worst case fits the channel.
   */
  lemma RenderedIsPrefix(j: Job, planned: seq<nat>, times: nat)
    requires j.Sound() && |j.schemes| == |planned| && Once(j, Halved(Budgets(planned), times)).Ok?
    ensures var h := Once(j, Halved(Budgets(planned), times)).harness;
            && |h.inputs| == |planned|
            && (forall i :: 0 <= i < |planned| ==>
                  h.inputs[i] != [] && h.inputs[i] <= j.schemes[i].Corpus(Budgets(planned)[i]))
            && MIN_DISPLAY_BYTES <= h.display <= MAX_DISPLAY_BYTES
            && Channel.WorstCase(j.runner, |h.inputs|, Count(h.inputs), h.display) <= j.limit
  {
    var budgets := Halved(Budgets(planned), times);
    var inputs := Corpora(j, budgets, |budgets|);
    hide Channel.DisplayBound, Channel.WorstCase;
    CountPositive(inputs);
    Channel.DisplayBoundFits(j.limit, j.runner, |inputs|, Count(inputs));
    HalvedShrinks(Budgets(planned), times);
    forall i | 0 <= i < |planned|
      ensures inputs[i] != [] && inputs[i] <= j.schemes[i].Corpus(Budgets(planned)[i])
    {
      assert inputs[i] in inputs;
      CorporaAt(j, budgets, |budgets|, i);
      PrefixLaw(j.schemes[i], budgets[i], Budgets(planned)[i]);
    }
  }

  // ----- which harness it is -----

  function Power(k: nat): (p: nat)
    ensures p >= 1
  {
    if k == 0 then 1 else 2 * Power(k - 1)
  }

  /** The inputs a target has after k halvings: its planned ones divided by 2^k, and one at least. */
  predicate IsLeft(left: nat, planned: nat, k: nat) {
    left >= 1 && planned < (left + 1) * Power(k) && (left == 1 || left * Power(k) <= planned)
  }

  lemma HalfIsLeft(left: nat, planned: nat, k: nat)
    requires IsLeft(left, planned, k)
    ensures IsLeft(Half(left), planned, k + 1)
  {
    var p, h := Power(k), Half(left);
    Doubled(h + 1, p);
    Channel.Scale(p, left + 1, 2 * (h + 1));
    if h > 1 {
      Doubled(h, p);
      Channel.Scale(p, 2 * h, left);
    }
  }

  lemma Doubled(h: nat, p: nat)
    ensures h * (2 * p) == p * (2 * h)
  {}

  lemma {:induction false} HalvedIs(planned: seq<nat>, k: nat, i: nat)
    requires i < |planned|
    ensures IsLeft(Halved(Budgets(planned), k)[i], planned[i], k)
  {
    if k > 0 {
      HalvedIs(planned, k - 1, i);
      HalfIsLeft(Halved(Budgets(planned), k - 1)[i], planned[i], k - 1);
      hide IsLeft;
    }
  }

  /** Only one number is that. */
  lemma LeftIsOne(a: nat, b: nat, planned: nat, k: nat)
    requires IsLeft(a, planned, k) && IsLeft(b, planned, k)
    ensures a == b
  {
    if a < b {
      Channel.Scale(Power(k), a + 1, b);
    } else if b < a {
      Channel.Scale(Power(k), b + 1, a);
    }
  }

  /** The corpora of one attempt. */
  ghost predicate AreCorpora(j: Job, planned: seq<nat>, k: nat, inputs: seq<seq<Input>>)
    requires j.Sound() && |j.schemes| == |planned|
  {
    |inputs| == |planned| && forall i :: 0 <= i < |planned| ==> exists n: nat :: IsLeft(n, planned[i], k) && inputs[i] == j.schemes[i].Corpus(n)
  }

  lemma {:induction false} CorporaAre(j: Job, planned: seq<nat>, k: nat, inputs: seq<seq<Input>>)
    requires j.Sound() && |j.schemes| == |planned| && AreCorpora(j, planned, k, inputs)
    ensures Corpora(j, Halved(Budgets(planned), k), |planned|) == inputs
  {
    hide Scheme.Corpus, IsLeft, Halved, Corpora;
    var budgets := Halved(Budgets(planned), k);
    forall i | 0 <= i < |planned|
      ensures Corpora(j, budgets, |planned|)[i] == inputs[i]
    {
      CorporaAt(j, budgets, |planned|, i);
      HalvedIs(planned, k, i);
      var n: nat :| IsLeft(n, planned[i], k) && inputs[i] == j.schemes[i].Corpus(n);
      LeftIsOne(n, budgets[i], planned[i], k);
    }
  }

  /** The display bound of a harness: the largest of at most 256 bytes whose worst case fits, when 32 fit. */
  predicate IsDisplay(j: Job, inputs: seq<seq<Input>>, display: nat) {
    && 32 <= display <= 256 && Channel.WorstCase(j.runner, |inputs|, Count(inputs), display) <= j.limit
    && (display < 256 ==> Channel.WorstCase(j.runner, |inputs|, Count(inputs), display + 1) > j.limit)
  }

  lemma {:induction false} DisplayIs(j: Job, inputs: seq<seq<Input>>)
    requires inputs != [] && !AnyEmpty(inputs)
    ensures Count(inputs) > 0
    ensures var d := Channel.DisplayBound(j.limit, j.runner, |inputs|, Count(inputs));
            && (d.Some? ==> IsDisplay(j, inputs, d.value))
            && (d.None? <==> Channel.WorstCase(j.runner, |inputs|, Count(inputs), 32) > j.limit)
  {
    hide Channel.DisplayBound, Channel.WorstCase, Count;
    CountPositive(inputs);
    Channel.DisplayBoundFits(j.limit, j.runner, |inputs|, Count(inputs));
    Channel.DisplayBoundLargest(j.limit, j.runner, |inputs|, Count(inputs));
  }

  /**
   What one attempt gives, after k halvings: no input when a corpus is empty; too large when not even
   32 bytes a display fit or the text is too long; and else the harness of those corpora.
   */
  lemma {:induction false} AttemptExact(j: Job, planned: seq<nat>, k: nat, inputs: seq<seq<Input>>)
    requires j.Sound() && |j.schemes| == |planned| && AreCorpora(j, planned, k, inputs)
    ensures var r := Once(j, Halved(Budgets(planned), k));
            if [] in inputs then r == Failed(NoInput)
            else if Channel.WorstCase(j.runner, |inputs|, Count(inputs), 32) > j.limit then r == Failed(TooLarge)
            else exists display :: IsDisplay(j, inputs, display) &&
                   r == match j.source(inputs, display)
                        case Fits => Ok(Rendered(inputs, display))
                        case TooLong => Failed(TooLarge)
                        case Unparsable => Failed(Broken)
  {
    hide Channel.DisplayBound, Channel.WorstCase, Count, Corpora, AreCorpora, Halved, Budgets, IsDisplay;
    CorporaAre(j, planned, k, inputs);
    AsMany(j, planned, k, inputs);
    if [] !in inputs {
      DisplayIs(j, inputs);
    }
  }

  lemma AsMany(j: Job, planned: seq<nat>, k: nat, inputs: seq<seq<Input>>)
    requires j.Sound() && |j.schemes| == |planned| && AreCorpora(j, planned, k, inputs)
    ensures inputs != [] && |Halved(Budgets(planned), k)| == |planned| && Corpora(j, Halved(Budgets(planned), k), |planned|) == inputs
  {
    CorporaAre(j, planned, k, inputs);
  }
}

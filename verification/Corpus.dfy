/** The seeded corpus of one function is a prefix of every larger one. */
module Corpus {
  // ----- the generator -----

  /** SplitMix64: the output for a state already advanced. */
  function Mixed(state: bv64): bv64 {
    var a := (state ^ (state >> 30)) * 0xBF58476D1CE4E5B9;
    var b := (a ^ (a >> 27)) * 0x94D049BB133111EB;
    b ^ (b >> 31)
  }

  function Advanced(state: bv64): bv64 {
    state + 0x9E3779B97F4A7C15
  }

  class SplitMix {
    var state: bv64

    constructor (seed: bv64)
      ensures state == seed
    {
      state := seed;
    }

    method Next() returns (z: bv64)
      modifies this
      ensures state == Advanced(old(state)) && z == Mixed(state)
    {
      hide Advanced, Mixed;
      state := Advanced(state);
      z := Mixed(state);
    }
  }

  /** A value below n: the modulo of the next output. */
  function Below(z: bv64, n: nat): (r: nat)
    requires n > 0
    ensures r < n
  {
    (z as int) % n
  }

  predicate Even(z: bv64) {
    z & 1 == 0
  }

  // ----- the scheme of one language -----

  /** One argument: a scalar, or a list of scalars that may be absent. Scalars are their literals. */
  datatype Value = Value(absent: bool, scalar: string, elems: seq<string>)

  datatype Input = Input(args: seq<Value>, call: string)

  /**
   The value tables and renderings of a language, applied to one target: the edge values of each
   parameter, a random value of it with the generator's state after, the call text, and what the
   redaction leaves alone.
   */
  datatype Scheme = Scheme(edges: seq<seq<Value>>, random: (nat, bv64) -> (Value, bv64), call: seq<Value> -> string, safe: string -> bool,
                           seed: bv64) {
    predicate Sound() {
      forall j :: 0 <= j < |edges| ==> edges[j] != []
    }

    function First(): seq<Value>
      requires Sound()
    {
      seq(|edges|, j requires 0 <= j < |edges| => edges[j][0])
    }

    /** The first value of every parameter, with one of them replaced by each of its other edge values. */
    function EdgesOf(j: nat, k: nat): seq<seq<Value>>
      requires Sound() && j < |edges| && k <= |edges[j]|
    {
      if k <= 1 then [] else EdgesOf(j, k - 1) + [First()[j := edges[j][k - 1]]]
    }

    function EdgesUpTo(j: nat): seq<seq<Value>>
      requires Sound() && j <= |edges|
    {
      if j == 0 then [First()] else EdgesUpTo(j - 1) + EdgesOf(j - 1, |edges[j - 1]|)
    }

    /** The value drawn for a parameter, and the state after. */
    function Drawn(j: nat, state: bv64): (Value, bv64)
      requires Sound() && j < |edges|
    {
      var s := Advanced(state);
      if Even(Mixed(s)) then (edges[j][Below(Mixed(Advanced(s)), |edges[j]|)], Advanced(s)) else random(j, s)
    }

    /** The first j arguments of one attempt. */
    function Arguments(j: nat, state: bv64): (r: (seq<Value>, bv64))
      requires Sound() && j <= |edges|
      ensures |r.0| == j
    {
      if j == 0 then ([], state)
      else
        var (args, s) := Arguments(j - 1, state);
        var (v, t) := Drawn(j - 1, s);
        (args + [v], t)
    }

    /** The generator's state after some attempts, and the argument lists they drew. */
    function StateAfter(attempts: nat): bv64
      requires Sound()
    {
      if attempts == 0 then seed else Arguments(|edges|, StateAfter(attempts - 1)).1
    }

    function Draws(attempts: nat): seq<seq<Value>>
      requires Sound()
    {
      if attempts == 0 then [] else Draws(attempts - 1) + [Arguments(|edges|, StateAfter(attempts - 1)).0]
    }

    /** Everything a corpus of n inputs may try, in order. */
    function Candidates(n: nat): seq<seq<Value>>
      requires Sound()
    {
      EdgesUpTo(|edges|) + Draws(16 * n + 64)
    }

    function Calls(inputs: seq<Input>): set<string> {
      set x | x in inputs :: x.call
    }

    /** The first n candidates whose calls are new and safe. */
    function Kept(candidates: seq<seq<Value>>, n: nat): (r: seq<Input>)
      ensures |r| <= n
    {
      if candidates == [] then []
      else
        var before := Kept(candidates[..|candidates| - 1], n);
        var args := candidates[|candidates| - 1];
        if |before| < n && call(args) !in Calls(before) && safe(call(args)) then before + [Input(args, call(args))] else before
    }

    function Corpus(n: nat): seq<Input>
      requires Sound()
    {
      if n < 1 then []
      else if edges == [] then (if safe(call([])) then [Input([], call([]))] else [])
      else Kept(Candidates(n), n)
    }
  }

  // ----- the prefix law -----

  lemma {:induction false} DrawsGrow(s: Scheme, a: nat, b: nat)
    requires s.Sound() && a <= b
    ensures s.Draws(a) <= s.Draws(b) && |s.Draws(a)| == a
    decreases b
  {
    hide Scheme.Arguments, Scheme.StateAfter;
    if a < b {
      DrawsGrow(s, a, b - 1);
    } else if a > 0 {
      DrawsGrow(s, a - 1, b - 1);
    }
  }

  /** Fewer inputs of the same candidates are the first of them. */
  lemma {:induction false} KeptFewer(s: Scheme, candidates: seq<seq<Value>>, m: nat, n: nat)
    requires m <= n
    ensures s.Kept(candidates, m) == s.Kept(candidates, n)[..if |s.Kept(candidates, n)| <= m then |s.Kept(candidates, n)| else m]
  {
    if candidates != [] {
      KeptFewer(s, candidates[..|candidates| - 1], m, n);
    }
  }

  /** More candidates only append. */
  lemma {:induction false} KeptMore(s: Scheme, candidates: seq<seq<Value>>, more: seq<seq<Value>>, n: nat)
    ensures s.Kept(candidates, n) <= s.Kept(candidates + more, n)
    decreases |more|
  {
    if more == [] {
      assert candidates + more == candidates;
    } else {
      KeptMore(s, candidates, more[..|more| - 1], n);
      assert (candidates + more)[..|candidates + more| - 1] == candidates + more[..|more| - 1];
    }
  }

  lemma CandidatesGrow(s: Scheme, m: nat, n: nat) returns (more: seq<seq<Value>>)
    requires s.Sound() && m <= n
    ensures s.Candidates(n) == s.Candidates(m) + more
  {
    hide Scheme.Draws, Scheme.EdgesUpTo;
    DrawsGrow(s, 16 * m + 64, 16 * n + 64);
    more := s.Draws(16 * n + 64)[16 * m + 64..];
    assert s.Draws(16 * n + 64) == s.Draws(16 * m + 64) + more;
  }

  /** Corpus(m) is a prefix of Corpus(n), although the number of attempts depends on n. */
  lemma PrefixLaw(s: Scheme, m: nat, n: nat)
    requires s.Sound() && m <= n
    ensures s.Corpus(m) <= s.Corpus(n)
  {
    if 1 <= m && s.edges != [] {
      hide Scheme.Candidates, Scheme.Kept;
      var more := CandidatesGrow(s, m, n);
      KeptFewer(s, s.Candidates(m), m, n);
      KeptMore(s, s.Candidates(m), more, n);
    }
  }

  predicate IsInput(s: Scheme, x: Input) {
    x.call == s.call(x.args) && s.safe(x.call)
  }

  predicate DistinctCalls(r: seq<Input>) {
    forall j, k :: 0 <= j < k < |r| ==> r[j].call != r[k].call
  }

  lemma {:induction false} KeptIsSound(s: Scheme, candidates: seq<seq<Value>>, n: nat)
    ensures forall x :: x in s.Kept(candidates, n) ==> IsInput(s, x)
    ensures DistinctCalls(s.Kept(candidates, n))
  {
    if candidates != [] {
      var before := s.Kept(candidates[..|candidates| - 1], n);
      KeptIsSound(s, candidates[..|candidates| - 1], n);
      forall k | 0 <= k < |before|
        ensures before[k].call in s.Calls(before)
      {
        assert before[k] in before;
      }
    }
  }

  /** A corpus has at most n inputs, their calls distinct and safe, each the call of its arguments. */
  lemma CorpusIsSound(s: Scheme, n: nat)
    requires s.Sound()
    ensures |s.Corpus(n)| <= n
    ensures forall x :: x in s.Corpus(n) ==> IsInput(s, x)
    ensures DistinctCalls(s.Corpus(n))
  {
    if n >= 1 && s.edges != [] {
      KeptIsSound(s, s.Candidates(n), n);
    }
  }

  /** No safe candidate is left out of a corpus that is not full. */
  lemma {:induction false} KeptComplete(s: Scheme, candidates: seq<seq<Value>>, n: nat, i: nat)
    requires i < |candidates| && s.safe(s.call(candidates[i]))
    ensures s.call(candidates[i]) in s.Calls(s.Kept(candidates, n)) || |s.Kept(candidates, n)| == n
  {
    var last := |candidates| - 1;
    var before := s.Kept(candidates[..last], n);
    assert before <= s.Kept(candidates, n);
    if i < last {
      KeptComplete(s, candidates[..last], n, i);
      if s.call(candidates[i]) in s.Calls(before) {
        var x :| x in before && x.call == s.call(candidates[i]);
        assert x in s.Kept(candidates, n);
      }
    } else if |before| < n && s.call(candidates[i]) !in s.Calls(before) {
      assert s.Kept(candidates, n)[|before|].call == s.call(candidates[i]);
    }
  }

  // ----- the loops -----

  /** The collector of corpusWith: its list, and the calls seen. */
  class Collector {
    const scheme: Scheme
    const n: nat
    var out: seq<Input>
    var seen: set<string>

    constructor (scheme: Scheme, n: nat)
      ensures this.scheme == scheme && this.n == n && out == [] && seen == {}
    {
      this.scheme, this.n, out, seen := scheme, n, [], {};
    }

    ghost predicate Holds(candidates: seq<seq<Value>>)
      reads this
    {
      out == scheme.Kept(candidates, n) && seen == scheme.Calls(out)
    }

    method Add(args: seq<Value>, ghost candidates: seq<seq<Value>>) returns (full: bool)
      requires Holds(candidates) && |out| < n
      modifies this
      ensures Holds(candidates + [args]) && full == (|out| >= n)
    {
      KeptNext(scheme, candidates, args, n);
      var call := scheme.call(args);
      if call !in seen && scheme.safe(call) {
        CallsNext(scheme, out, Input(args, call));
        seen := seen + {call};
        out := out + [Input(args, call)];
      }
      full := |out| >= n;
    }
  }

  lemma KeptNext(s: Scheme, candidates: seq<seq<Value>>, args: seq<Value>, n: nat)
    ensures s.Kept(candidates + [args], n)
         == if |s.Kept(candidates, n)| < n && s.call(args) !in s.Calls(s.Kept(candidates, n)) && s.safe(s.call(args)) then
              s.Kept(candidates, n) + [Input(args, s.call(args))]
            else s.Kept(candidates, n)
  {
    assert (candidates + [args])[..|candidates|] == candidates;
  }

  lemma CallsNext(s: Scheme, inputs: seq<Input>, x: Input)
    ensures s.Calls(inputs + [x]) == s.Calls(inputs) + {x.call}
  {
    assert x in inputs + [x];
    forall call | call in s.Calls(inputs)
      ensures call in s.Calls(inputs + [x])
    {
      var y :| y in inputs && y.call == call;
      assert y in inputs + [x];
    }
  }

  /** Once full, nothing that follows matters. */
  lemma KeptFull(s: Scheme, candidates: seq<seq<Value>>, more: seq<seq<Value>>, n: nat)
    requires |s.Kept(candidates, n)| >= n
    ensures s.Kept(candidates + more, n) == s.Kept(candidates, n)
  {
    KeptMore(s, candidates, more, n);
  }

  lemma KeptEnough(s: Scheme, tried: seq<seq<Value>>, all: seq<seq<Value>>, n: nat)
    requires tried <= all && |s.Kept(tried, n)| >= n
    ensures s.Kept(all, n) == s.Kept(tried, n)
  {
    assert all == tried + all[|tried|..];
    KeptFull(s, tried, all[|tried|..], n);
  }

  lemma {:induction false} EdgesGrow(s: Scheme, j: nat, k: nat)
    requires s.Sound() && j < |s.edges| && k <= |s.edges[j]|
    ensures s.EdgesUpTo(j) + s.EdgesOf(j, k) <= s.EdgesUpTo(|s.edges|)
  {
    EdgesOfGrow(s, j, k);
    UpToGrow(s, j + 1, |s.edges|);
    assert s.EdgesUpTo(j + 1) == s.EdgesUpTo(j) + s.EdgesOf(j, |s.edges[j]|);
  }

  lemma {:induction false} EdgesOfGrow(s: Scheme, j: nat, k: nat)
    requires s.Sound() && j < |s.edges| && k <= |s.edges[j]|
    ensures s.EdgesOf(j, k) <= s.EdgesOf(j, |s.edges[j]|)
    decreases |s.edges[j]| - k
  {
    if k < |s.edges[j]| {
      EdgesOfGrow(s, j, k + 1);
    }
  }

  lemma {:induction false} UpToGrow(s: Scheme, i: nat, j: nat)
    requires s.Sound() && i <= j <= |s.edges|
    ensures s.EdgesUpTo(i) <= s.EdgesUpTo(j)
    decreases j
  {
    if i < j {
      UpToGrow(s, i, j - 1);
    }
  }

  /** One attempt of the random phase. */
  method Draw(s: Scheme, r: SplitMix) returns (args: seq<Value>)
    requires s.Sound()
    modifies r
    ensures (args, r.state) == s.Arguments(|s.edges|, old(r.state))
  {
    hide Mixed, Advanced, Even, Below;
    args := [];
    for j := 0 to |s.edges|
      invariant (args, r.state) == s.Arguments(j, old(r.state))
    {
      var v: Value;
      var coin := r.Next();
      if Even(coin) {
        var z := r.Next();
        v := s.edges[j][Below(z, |s.edges[j]|)];
      } else {
        var drawn := s.random(j, r.state);
        v, r.state := drawn.0, drawn.1;
      }
      args := args + [v];
    }
  }

  /** The edge phase: the first values, then each parameter in turn. */
  method AddEdges(s: Scheme, n: nat, c: Collector) returns (full: bool)
    requires s.Sound() && c.scheme == s && c.n == n >= 1 && c.Holds([])
    modifies c
    ensures full ==> c.out == s.Kept(s.EdgesUpTo(|s.edges|), n) && |c.out| >= n
    ensures !full ==> c.Holds(s.EdgesUpTo(|s.edges|)) && |c.out| < n
  {
    hide Scheme.Kept, Scheme.EdgesOf, Scheme.Calls;
    var first := s.First();
    NothingKept(s, n);
    full := c.Add(first, []);
    assert [] + [first] == s.EdgesUpTo(0);
    UpToGrow(s, 0, |s.edges|);
    if full {
      KeptEnough(s, s.EdgesUpTo(0), s.EdgesUpTo(|s.edges|), n);
      return;
    }
    for j := 0 to |s.edges|
      invariant c.Holds(s.EdgesUpTo(j)) && |c.out| < n
    {
      var k := 1;
      EdgesStart(s, j);
      while k < |s.edges[j]|
        invariant 1 <= k <= |s.edges[j]| && c.Holds(s.EdgesUpTo(j) + s.EdgesOf(j, k)) && |c.out| < n
      {
        EdgesNext(s, j, k);
        full := c.Add(first[j := s.edges[j][k]], s.EdgesUpTo(j) + s.EdgesOf(j, k));
        k := k + 1;
        if full {
          EdgesGrow(s, j, k);
          KeptEnough(s, s.EdgesUpTo(j) + s.EdgesOf(j, k), s.EdgesUpTo(|s.edges|), n);
          return;
        }
      }
    }
    full := false;
  }

  lemma EdgesStart(s: Scheme, j: nat)
    requires s.Sound() && j < |s.edges|
    ensures s.EdgesUpTo(j) + s.EdgesOf(j, 1) == s.EdgesUpTo(j)
  {}

  lemma EdgesNext(s: Scheme, j: nat, k: nat)
    requires s.Sound() && j < |s.edges| && 1 <= k < |s.edges[j]|
    ensures s.EdgesUpTo(j) + s.EdgesOf(j, k) + [s.First()[j := s.edges[j][k]]] == s.EdgesUpTo(j) + s.EdgesOf(j, k + 1)
  {}

  /** corpusWith. */
  method CorpusWith(s: Scheme, n: int) returns (out: seq<Input>)
    requires s.Sound()
    ensures out == s.Corpus(if n < 0 then 0 else n)
  {
    hide Scheme.Kept, Scheme.EdgesUpTo, Scheme.Arguments, Scheme.Calls;
    if n < 1 {
      return [];
    }
    if s.edges == [] {
      var call := s.call([]);
      if !s.safe(call) {
        return [];
      }
      return [Input([], call)];
    }
    NothingKept(s, n);
    var c := new Collector(s, n);
    var full := AddEdges(s, n, c);
    var edges := s.EdgesUpTo(|s.edges|);
    if full {
      KeptEnough(s, edges, s.Candidates(n), n);
      return c.out;
    }
    var r := new SplitMix(s.seed);
    assert edges + s.Draws(0) == edges;
    var attempt := 0;
    while attempt < 16 * n + 64
      invariant 0 <= attempt <= 16 * n + 64
      invariant r.state == s.StateAfter(attempt)
      invariant c.scheme == s && c.n == n && c.Holds(edges + s.Draws(attempt)) && |c.out| < n
    {
      var args := Draw(s, r);
      full := c.Add(args, edges + s.Draws(attempt));
      attempt := attempt + 1;
      assert edges + s.Draws(attempt - 1) + [args] == edges + s.Draws(attempt);
      if full {
        DrawsGrow(s, attempt, 16 * n + 64);
        KeptEnough(s, edges + s.Draws(attempt), s.Candidates(n), n);
        break;
      }
    }
    return c.out;
  }

  lemma NothingKept(s: Scheme, n: nat)
    ensures s.Kept([], n) == [] && s.Calls([]) == {}
  {}
}

/** What a corpus has tried. */
module Attempts {
  import opened Corpus

  // ----- what is tried -----

  /** All are the first values of their parameters, except that parameter j has its value k. */
  predicate EdgeArgs(s: Scheme, j: nat, k: nat, args: seq<Value>)
    requires s.Sound() && j < |s.edges| && k < |s.edges[j]|
  {
    && |args| == |s.edges| && args[j] == s.edges[j][k]
    && forall i :: 0 <= i < |args| && i != j ==> args[i] == s.edges[i][0]
  }

  /** The arguments of the edge phase. */
  ghost predicate IsEdge(s: Scheme, args: seq<Value>)
    requires s.Sound()
  {
    exists j, k :: 0 <= j < |s.edges| && 0 <= k < |s.edges[j]| && EdgeArgs(s, j, k, args)
  }

  /** One argument from the generator: an even output asks for an edge value, an odd one for a random one. */
  predicate IsDrawnValue(s: Scheme, j: nat, from: bv64, v: Value, to: bv64)
    requires s.Sound() && j < |s.edges|
  {
    var coin := Mixed(Advanced(from));
    var second := Advanced(Advanced(from));
    if coin % 2 == 0 then to == second && v == s.edges[j][Mixed(second) as int % |s.edges[j]|]
    else (v, to) == (s.random)(j, Advanced(from))
  }

  /** One attempt asks for every parameter in turn, and the generator goes through `states`. */
  predicate IsAttempt(s: Scheme, args: seq<Value>, states: seq<bv64>)
    requires s.Sound() && |args| <= |s.edges|
  {
    |states| == |args| + 1 && forall j :: 0 <= j < |args| ==> IsDrawnValue(s, j, states[j], args[j], states[j + 1])
  }

  /** The attempts of a corpus: the first starts from the seed, each next one where the last ended. */
  predicate AreAttempts(s: Scheme, lists: seq<seq<Value>>, states: seq<seq<bv64>>)
    requires s.Sound()
  {
    && |states| == |lists|
    && (forall a :: 0 <= a < |lists| ==> |lists[a]| == |s.edges| && |states[a]| == |s.edges| + 1 && IsAttempt(s, lists[a], states[a]))
    && (forall a :: 0 <= a < |lists| ==> states[a][0] == if a == 0 then s.seed else states[a - 1][|s.edges|])
  }

  /** The call is not safe, or the corpus has it. */
  predicate Tried(s: Scheme, n: nat, args: seq<Value>)
    requires s.Sound()
  {
    s.safe(s.call(args)) ==> s.call(args) in s.Calls(s.Corpus(n))
  }

  // ----- the attempts -----

  lemma EvenIsEven(z: bv64)
    ensures Even(z) <==> z % 2 == 0
  {
    assert z & 1 == z % 2;
  }

  lemma {:induction false} AttemptIs(s: Scheme, args: seq<Value>, states: seq<bv64>)
    requires s.Sound() && |args| <= |s.edges| && IsAttempt(s, args, states)
    ensures s.Arguments(|args|, states[0]) == (args, states[|args|])
  {
    hide Mixed, Advanced, Even;
    if args != [] {
      var last := |args| - 1;
      AttemptIs(s, args[..last], states[..|args|]);
      assert IsDrawnValue(s, last, states[last], args[last], states[last + 1]);
      EvenIsEven(Mixed(Advanced(states[last])));
      assert args[..last] + [args[last]] == args;
    }
  }

  lemma {:induction false} AttemptsAre(s: Scheme, lists: seq<seq<Value>>, states: seq<seq<bv64>>, m: nat)
    requires s.Sound() && AreAttempts(s, lists, states) && m <= |lists|
    ensures s.Draws(m) == lists[..m]
    ensures s.StateAfter(m) == if m == 0 then s.seed else states[m - 1][|s.edges|]
  {
    hide Scheme.Arguments, IsDrawnValue;
    if m > 0 {
      AttemptsAre(s, lists, states, m - 1);
      AttemptIs(s, lists[m - 1], states[m - 1]);
      assert lists[..m - 1] + [lists[m - 1]] == lists[..m];
    }
  }

  // ----- the edge values -----

  lemma EdgeIs(s: Scheme, j: nat, k: nat, args: seq<Value>)
    requires s.Sound() && j < |s.edges| && k < |s.edges[j]|
    ensures EdgeArgs(s, j, k, args) <==> args == s.First()[j := s.edges[j][k]]
    ensures s.First()[j := s.edges[j][0]] == s.First()
  {}

  lemma {:induction false} EdgesOfHas(s: Scheme, j: nat, m: nat)
    requires s.Sound() && j < |s.edges| && m <= |s.edges[j]|
    ensures forall k :: 1 <= k < m ==> s.First()[j := s.edges[j][k]] in s.EdgesOf(j, m)
    ensures forall args :: args in s.EdgesOf(j, m) ==> IsEdge(s, args)
  {
    hide EdgeArgs;
    if m > 1 {
      EdgesOfHas(s, j, m - 1);
      var last := s.First()[j := s.edges[j][m - 1]];
      EdgeIs(s, j, m - 1, last);
      assert s.EdgesOf(j, m) == s.EdgesOf(j, m - 1) + [last];
    }
  }

  lemma {:induction false} EdgesUpToHas(s: Scheme, m: nat)
    requires s.Sound() && m <= |s.edges| && s.edges != []
    ensures s.First() in s.EdgesUpTo(m)
    ensures forall j, k :: 0 <= j < m && 1 <= k < |s.edges[j]| ==> s.First()[j := s.edges[j][k]] in s.EdgesUpTo(m)
    ensures forall args :: args in s.EdgesUpTo(m) ==> IsEdge(s, args)
  {
    hide Scheme.EdgesOf, Scheme.First;
    if m == 0 {
      EdgeIs(s, 0, 0, s.First());
    } else {
      EdgesUpToHas(s, m - 1);
      EdgesOfHas(s, m - 1, |s.edges[m - 1]|);
    }
  }

  /** The edge phase tries exactly the edge arguments. */
  lemma EdgesAre(s: Scheme, args: seq<Value>)
    requires s.Sound() && s.edges != []
    ensures args in s.EdgesUpTo(|s.edges|) <==> IsEdge(s, args)
  {
    hide Scheme.EdgesOf, Scheme.EdgesUpTo, Scheme.First, EdgeArgs;
    EdgesUpToHas(s, |s.edges|);
    if IsEdge(s, args) {
      var j, k :| 0 <= j < |s.edges| && 0 <= k < |s.edges[j]| && EdgeArgs(s, j, k, args);
      EdgeIs(s, j, k, args);
    }
  }

  // ----- the corpus -----

  lemma {:induction false} KeptFrom(s: Scheme, candidates: seq<seq<Value>>, n: nat)
    ensures forall x :: x in s.Kept(candidates, n) ==> x.args in candidates
  {
    if candidates != [] {
      KeptFrom(s, candidates[..|candidates| - 1], n);
    }
  }

  lemma CallsGrow(s: Scheme, a: seq<Input>, b: seq<Input>)
    requires a <= b
    ensures s.Calls(a) <= s.Calls(b)
  {
    forall call | call in s.Calls(a)
      ensures call in s.Calls(b)
    {
      var x :| x in a && x.call == call;
      assert x in b;
    }
  }

  /** Of candidates that did not fill the corpus, every safe one is in it. */
  lemma AllKept(s: Scheme, candidates: seq<seq<Value>>, more: seq<seq<Value>>, n: nat, args: seq<Value>)
    requires |s.Kept(candidates, n)| < n && args in candidates && s.safe(s.call(args))
    ensures s.call(args) in s.Calls(s.Kept(candidates + more, n))
  {
    hide Scheme.Kept;
    var i :| 0 <= i < |candidates| && candidates[i] == args;
    KeptComplete(s, candidates, n, i);
    KeptMore(s, candidates, more, n);
    CallsGrow(s, s.Kept(candidates, n), s.Kept(candidates + more, n));
  }

  /**
   A corpus that is not full has tried every edge value of every parameter and every list that
   16n + 64 attempts draw. Nothing else is tried, and an input that is no edge value was looked
   for only after all of those.
   */
  lemma NotFullTriedAll(s: Scheme, n: nat, lists: seq<seq<Value>>, states: seq<seq<bv64>>)
    requires s.Sound() && n >= 1 && s.edges != []
    requires AreAttempts(s, lists, states) && |lists| == 16 * n + 64
    ensures |s.Corpus(n)| < n ==> forall args :: IsEdge(s, args) || args in lists ==> Tried(s, n, args)
    ensures forall x :: x in s.Corpus(n) ==> IsEdge(s, x.args) || x.args in lists
    ensures (exists x :: x in s.Corpus(n) && !IsEdge(s, x.args)) ==> forall args :: IsEdge(s, args) ==> Tried(s, n, args)
  {
    hide Scheme.Kept, Scheme.EdgesUpTo, Scheme.Draws, IsEdge, IsAttempt, Scheme.Calls;
    var edges := s.EdgesUpTo(|s.edges|);
    AttemptsAre(s, lists, states, |lists|);
    assert lists[..|lists|] == lists;
    assert s.Candidates(n) == edges + lists;
    forall args
      ensures args in edges <==> IsEdge(s, args)
    {
      EdgesAre(s, args);
    }
    KeptFrom(s, edges + lists, n);
    if |s.Kept(edges, n)| >= n {
      KeptFull(s, edges, lists, n);
      KeptFrom(s, edges, n);
    } else {
      forall args | IsEdge(s, args) && s.safe(s.call(args))
        ensures s.call(args) in s.Calls(s.Corpus(n))
      {
        AllKept(s, edges, lists, n, args);
      }
    }
    if |s.Corpus(n)| < n {
      assert edges + lists + [] == edges + lists;
      forall args | (IsEdge(s, args) || args in lists) && s.safe(s.call(args))
        ensures s.call(args) in s.Calls(s.Corpus(n))
      {
        AllKept(s, edges + lists, [], n, args);
      }
    }
  }

  /** The attempts exist: they are those the loop makes. */
  lemma {:induction false} AttemptMade(s: Scheme, j: nat, from: bv64) returns (states: seq<bv64>)
    requires s.Sound() && j <= |s.edges|
    ensures |states| == j + 1 && states[0] == from && states[j] == s.Arguments(j, from).1
    ensures IsAttempt(s, s.Arguments(j, from).0, states)
  {
    hide Mixed, Advanced, Even;
    if j == 0 {
      states := [from];
    } else {
      var before := AttemptMade(s, j - 1, from);
      EvenIsEven(Mixed(Advanced(before[j - 1])));
      states := before + [s.Arguments(j, from).1];
    }
  }

  lemma {:induction false} AttemptsMade(s: Scheme, m: nat) returns (states: seq<seq<bv64>>)
    requires s.Sound()
    ensures AreAttempts(s, s.Draws(m), states) && |states| == m
    ensures m > 0 ==> |states[m - 1]| == |s.edges| + 1 && states[m - 1][|s.edges|] == s.StateAfter(m)
  {
    hide Scheme.Arguments, IsDrawnValue;
    if m == 0 {
      states := [];
    } else {
      var before := AttemptsMade(s, m - 1);
      var next := AttemptMade(s, |s.edges|, s.StateAfter(m - 1));
      states := before + [next];
    }
  }

  /** Outputs of SplitMix64: the first three from seed 0 and the first five from seed 1234567. */
  lemma KnownOutputs()
    ensures Outputs(0, 3) == [16294208416658607535, 7960286522194355700, 487617019471545679]
    ensures Outputs(1234567, 5)
         == [6457827717110365317, 3203168211198807973, 9817491932198370423, 4593380528125082431, 16408922859458223821]
  {}

  function Outputs(state: bv64, n: nat): seq<bv64>
    decreases n
  {
    if n == 0 then [] else [Mixed(Advanced(state))] + Outputs(Advanced(state), n - 1)
  }
}

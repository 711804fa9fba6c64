/**
 The divergent inputs of one function: the order in which they are listed, and which of them comes
 first as counterexample.
 */
module Divergence {
  import opened Json
  import opened Records

  datatype Divergent = Divergent(index: int, base: Record, candidate: Record) {
    /** The displays show the difference. */
    predicate Shows() {
      base.display != candidate.display
    }
  }

  /** Shorter calls first, then lower indices. */
  predicate Less(a: Divergent, b: Divergent) {
    if |a.base.call| != |b.base.call| then |a.base.call| < |b.base.call| else a.index < b.index
  }

  predicate Ordered(s: seq<Divergent>) {
    forall i, j :: 0 <= i < j < |s| ==> !Less(s[j], s[i])
  }

  // ----- the stable sort -----

  /** x after the last element that is not greater. */
  function Insert(s: seq<Divergent>, x: Divergent): (r: seq<Divergent>)
    ensures |r| == |s| + 1
  {
    if s == [] || !Less(x, s[|s| - 1]) then s + [x]
    else Insert(s[..|s| - 1], x) + [s[|s| - 1]]
  }

  function Sorted(s: seq<Divergent>): (r: seq<Divergent>)
    ensures |r| == |s|
  {
    if s == [] then [] else Insert(Sorted(s[..|s| - 1]), s[|s| - 1])
  }

  lemma {:induction false} InsertPermutes(s: seq<Divergent>, x: Divergent)
    ensures multiset(Insert(s, x)) == multiset(s) + multiset{x}
    decreases |s|
  {
    hide Less;
    if s != [] && Less(x, s[|s| - 1]) {
      InsertPermutes(s[..|s| - 1], x);
      assert s == s[..|s| - 1] + [s[|s| - 1]];
    }
  }

  lemma OrderedSnoc(s: seq<Divergent>, last: Divergent)
    requires Ordered(s) && forall y :: y in s ==> !Less(last, y)
    ensures Ordered(s + [last])
  {
    hide Less;
    assert forall k :: 0 <= k < |s| ==> s[k] in s;
  }

  lemma OrderedFront(front: seq<Divergent>, last: Divergent)
    requires Ordered(front + [last])
    ensures Ordered(front) && forall y :: y in front ==> !Less(last, y)
  {
    hide Less;
    var s := front + [last];
    assert forall k :: 0 <= k < |front| ==> s[k] == front[k];
    assert s[|front|] == last;
  }

  lemma {:induction false} InsertKeeps(s: seq<Divergent>, x: Divergent)
    ensures multiset(Insert(s, x)) == multiset(s) + multiset{x}
    ensures Ordered(s) ==> Ordered(Insert(s, x))
    decreases |s|
  {
    hide Ordered;
    InsertPermutes(s, x);
    if Ordered(s) {
      if s == [] {
        OrderedOne(x);
      } else {
        var front, last := s[..|s| - 1], s[|s| - 1];
        assert s == front + [last];
        OrderedFront(front, last);
        if Less(x, last) {
          InsertKeeps(front, x);
          forall y | y in Insert(front, x)
            ensures !Less(last, y)
          {
            assert y in multiset(Insert(front, x));
          }
          OrderedSnoc(Insert(front, x), last);
        } else {
          forall y | y in s
            ensures !Less(x, y)
          {
            assert y == last || y in front;
          }
          OrderedSnoc(s, x);
        }
      }
    }
  }

  lemma OrderedOne(x: Divergent)
    ensures Ordered([x]) && [] + [x] == [x]
  {}

  lemma {:induction false} SortedKeeps(s: seq<Divergent>)
    ensures multiset(Sorted(s)) == multiset(s)
    ensures Ordered(Sorted(s))
    decreases |s|
  {
    if s != [] {
      var front, last := s[..|s| - 1], s[|s| - 1];
      SortedKeeps(front);
      InsertKeeps(Sorted(front), last);
      assert s == front + [last];
    }
  }

  method Swap(a: array<Divergent>, i: nat)
    requires 0 < i < a.Length
    modifies a
    ensures a[..] == old(a[..])[i := old(a[i - 1])][i - 1 := old(a[i])]
  {
    a[i], a[i - 1] := a[i - 1], a[i];
  }

  /** Moves element n back to its place among the first n, which are sorted. */
  method Sink(a: array<Divergent>, n: nat)
    requires n < a.Length
    modifies a
    ensures a[..] == old(Insert(a[..n], a[n]) + a[n + 1..])
  {
    var j := n;
    ghost var x, want := a[n], Insert(a[..n], a[n]);
    assert want == Insert(a[..n], x) + a[n + 1..n + 1];
    while j > 0 && Less(a[j], a[j - 1])
      invariant 0 <= j <= n && a[j] == x
      invariant want == Insert(a[..j], x) + a[j + 1..n + 1]
      invariant a[n + 1..] == old(a[n + 1..])
    {
      ghost var before := a[..];
      assert a[..j][..j - 1] == a[..j - 1];
      Swap(a, j);
      assert a[..j - 1] == before[..j - 1];
      assert a[j..n + 1] == [before[j - 1]] + before[j + 1..n + 1];
      assert a[n + 1..] == before[n + 1..];
      j := j - 1;
    }
    assert Insert(a[..j], x) == a[..j] + [x] by {
      assert j > 0 ==> a[..j][j - 1] == a[j - 1];
    }
    assert a[..n + 1] == a[..j] + [x] + a[j + 1..n + 1];
    assert a[..] == a[..n + 1] + a[n + 1..];
  }

  /** Any stable sort gives this result; this one inserts. */
  method Sort(a: array<Divergent>)
    modifies a
    ensures a[..] == Sorted(old(a[..]))
  {
    ghost var was := a[..];
    for n := 0 to a.Length
      invariant a[..n] == Sorted(was[..n])
      invariant a[n..] == was[n..]
    {
      ghost var before := a[..];
      assert before[n] == was[n..][0] && before[n + 1..] == was[n..][1..];
      Sink(a, n);
      assert was[..n + 1][..n] == was[..n];
      assert a[..n + 1] == Insert(before[..n], before[n]);
      assert a[n + 1..] == was[n + 1..];
    }
    assert a[..a.Length] == a[..] && was[..a.Length] == was;
  }

  // ----- the counterexample -----

  /** The first position whose displays differ, or |s|. */
  function FirstShowing(s: seq<Divergent>): (k: nat)
    ensures k <= |s|
    ensures forall j :: 0 <= j < k ==> !s[j].Shows()
    ensures k < |s| ==> s[k].Shows()
  {
    if s == [] || s[0].Shows() then 0 else 1 + FirstShowing(s[1..])
  }

  /** The first showing element moved to the front. */
  function Promoted(s: seq<Divergent>): (r: seq<Divergent>)
    ensures |r| == |s|
  {
    var k := FirstShowing(s);
    if k == |s| then s else [s[k]] + s[..k] + s[k + 1..]
  }

  /** The overlapping copy that shifts the first k elements one place to the right. */
  method ShiftRight(a: array<Divergent>, k: nat)
    requires k < a.Length
    modifies a
    ensures a[..] == old([a[0]] + a[..k] + a[k + 1..])
  {
    var i := k;
    while i > 0
      invariant 0 <= i <= k
      invariant forall j :: 0 <= j <= i ==> a[j] == old(a[j])
      invariant forall j :: i < j <= k ==> a[j] == old(a[j - 1])
      invariant forall j :: k < j < a.Length ==> a[j] == old(a[j])
    {
      a[i] := a[i - 1];
      i := i - 1;
    }
    ghost var shifted := old([a[0]] + a[..k] + a[k + 1..]);
    forall j | 0 <= j < a.Length
      ensures a[..][j] == shifted[j]
    {}
  }

  method Promote(a: array<Divergent>)
    modifies a
    ensures a[..] == Promoted(old(a[..]))
  {
    var k := 0;
    while k < a.Length && !a[k].Shows()
      invariant k <= a.Length && forall j :: 0 <= j < k ==> !a[j].Shows()
    {
      k := k + 1;
    }
    FirstShowingIs(a[..], k);
    if k < a.Length {
      var d := a[k];
      ShiftRight(a, k);
      a[0] := d;
    }
  }

  lemma {:induction false} FirstShowingIs(s: seq<Divergent>, k: nat)
    requires k <= |s| && (forall j :: 0 <= j < k ==> !s[j].Shows()) && (k < |s| ==> s[k].Shows())
    ensures FirstShowing(s) == k
    decreases k
  {
    if k > 0 {
      FirstShowingIs(s[1..], k - 1);
    }
  }

  /** The list as it is reported. */
  function Listed(s: seq<Divergent>): (r: seq<Divergent>)
    ensures |r| == |s|
  {
    Promoted(Sorted(s))
  }

  predicate SomeShows(s: seq<Divergent>) {
    exists d :: d in s && d.Shows()
  }

  /** d comes first among the elements of s, or among those that show the difference. */
  predicate IsLeast(s: seq<Divergent>, d: Divergent) {
    forall x :: x in s && (SomeShows(s) ==> x.Shows()) ==> !Less(x, d)
  }

  /**
   The reported list holds the same divergent inputs. Its head is the least of those whose
   displays differ, or the least of all when none does, and the others stay sorted.
   */
  lemma ListedIsChoice(s: seq<Divergent>)
    requires s != []
    ensures multiset(Listed(s)) == multiset(s)
    ensures Ordered(Listed(s)[1..])
    ensures SomeShows(s) ==> Listed(s)[0].Shows()
    ensures IsLeast(s, Listed(s)[0])
  {
    hide Less, Ordered;
    SortedKeeps(s);
    InBoth(s, Sorted(s));
    PromotedPermutes(Sorted(s));
    PromotedHead(Sorted(s));
    assert SomeShows(s) <==> SomeShows(Sorted(s));
  }

  lemma PromotedPermutes(t: seq<Divergent>)
    requires t != [] && Ordered(t)
    ensures multiset(Promoted(t)) == multiset(t) && Ordered(Promoted(t)[1..])
  {
    hide Ordered, Less, FirstShowing;
    var k := FirstShowing(t);
    if k < |t| {
      Moved(t, k);
      OrderedWithout(t, k);
      Rotated(t, k);
    } else {
      assert t[..0] + t[1..] == t[1..];
      OrderedWithout(t, 0);
    }
  }

  lemma Moved(t: seq<Divergent>, k: nat)
    requires k < |t|
    ensures ([t[k]] + t[..k] + t[k + 1..])[1..] == t[..k] + t[k + 1..]
  {}

  lemma Rotated(t: seq<Divergent>, k: nat)
    requires k < |t|
    ensures multiset([t[k]] + t[..k] + t[k + 1..]) == multiset(t)
  {
    assert t == t[..k] + ([t[k]] + t[k + 1..]);
  }

  lemma PromotedHead(t: seq<Divergent>)
    requires t != [] && Ordered(t)
    ensures SomeShows(t) ==> Promoted(t)[0].Shows()
    ensures IsLeast(t, Promoted(t)[0])
  {
    var k := FirstShowing(t);
    var head := if k < |t| then k else 0;
    forall x | x in t && (SomeShows(t) ==> x.Shows())
      ensures !Less(x, t[head])
    {
      var j :| 0 <= j < |t| && t[j] == x;
      IrreflexiveLess(t[head]);
    }
  }

  lemma IrreflexiveLess(d: Divergent)
    ensures !Less(d, d)
  {}

  lemma InBoth(s: seq<Divergent>, t: seq<Divergent>)
    requires multiset(s) == multiset(t)
    ensures forall d :: d in s <==> d in t
  {
    forall d ensures d in s <==> d in t {
      assert d in multiset(s) <==> d in multiset(t);
    }
  }

  lemma OrderedWithout(t: seq<Divergent>, k: nat)
    requires k < |t| && Ordered(t)
    ensures Ordered(t[..k] + t[k + 1..])
  {
    var r := t[..k] + t[k + 1..];
    forall i, j | 0 <= i < j < |r|
      ensures !Less(r[j], r[i])
    {
      var x := if i < k then i else i + 1;
      var y := if j < k then j else j + 1;
      assert r[i] == t[x] && r[j] == t[y];
    }
  }
}

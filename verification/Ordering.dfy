/** sort.SliceStable: a sorted permutation that keeps the order of equal elements. */
module Ordering {
  /** A comparison that sorts: never both ways, and not being before is transitive. */
  ghost predicate Weak<T(!new)>(less: (T, T) -> bool) {
    && (forall a, b :: less(a, b) ==> !less(b, a))
    && (forall a, b, c :: !less(b, a) && !less(c, b) ==> !less(c, a))
  }

  predicate Sorted<T>(s: seq<T>, less: (T, T) -> bool) {
    forall i, j :: 0 <= i < j < |s| ==> !less(s[j], s[i])
  }

  /** The elements that no comparison tells from x, in order. */
  function Like<T>(s: seq<T>, x: T, less: (T, T) -> bool): seq<T> {
    if s == [] then []
    else
      var last := s[|s| - 1];
      Like(s[..|s| - 1], x, less) + if less(x, last) || less(last, x) then [] else [last]
  }

  /** Equal elements keep their order. */
  ghost predicate Stable<T(!new)>(s: seq<T>, t: seq<T>, less: (T, T) -> bool) {
    forall x :: Like(s, x, less) == Like(t, x, less)
  }

  lemma {:induction false} LikeJoin<T>(a: seq<T>, b: seq<T>, x: T, less: (T, T) -> bool)
    ensures Like(a + b, x, less) == Like(a, x, less) + Like(b, x, less)
    decreases |b|
  {
    if b == [] {
      assert a + b == a;
    } else {
      assert (a + b)[..|a + b| - 1] == a + b[..|b| - 1];
      LikeJoin(a, b[..|b| - 1], x, less);
    }
  }

  lemma {:induction false} LikeNone<T>(s: seq<T>, x: T, less: (T, T) -> bool)
    requires forall k :: 0 <= k < |s| ==> less(x, s[k]) || less(s[k], x)
    ensures Like(s, x, less) == []
    decreases |s|
  {
    if s != [] {
      LikeNone(s[..|s| - 1], x, less);
    }
  }

  lemma LikeOne<T>(y: T, x: T, less: (T, T) -> bool)
    ensures Like([y], x, less) == if less(x, y) || less(y, x) then [] else [y]
  {
    assert [y][..0] == [];
  }

  /** The position after the last element that x is not before. */
  predicate Fits<T>(s: seq<T>, at: nat, x: T, less: (T, T) -> bool) {
    at <= |s| && (forall k :: 0 <= k < at ==> !less(x, s[k])) && (forall k :: at <= k < |s| ==> less(x, s[k]))
  }

  lemma FitsSorted<T(!new)>(s: seq<T>, at: nat, x: T, less: (T, T) -> bool)
    requires Weak(less) && Sorted(s, less) && at <= |s|
    requires (at < |s| ==> less(x, s[at])) && (at > 0 ==> !less(x, s[at - 1]))
    ensures Fits(s, at, x, less)
  {
    forall k | 0 <= k < at
      ensures !less(x, s[k])
    {
      assert k < at - 1 ==> !less(s[at - 1], s[k]);
    }
    forall k | at <= k < |s|
      ensures less(x, s[k])
    {
      assert at < k ==> !less(s[k], s[at]);
    }
  }

  lemma InsertSorted<T(!new)>(s: seq<T>, at: nat, x: T, less: (T, T) -> bool)
    requires Weak(less) && Sorted(s, less) && Fits(s, at, x, less)
    ensures Sorted(s[..at] + [x] + s[at..], less)
    ensures multiset(s[..at] + [x] + s[at..]) == multiset(s) + multiset{x}
  {
    assert s == s[..at] + s[at..];
    OrderInserted(s, at, x, less);
  }

  lemma OrderInserted<T(!new)>(s: seq<T>, at: nat, x: T, less: (T, T) -> bool)
    requires Weak(less) && Sorted(s, less) && Fits(s, at, x, less)
    ensures Sorted(s[..at] + [x] + s[at..], less)
  {
    var r := s[..at] + [x] + s[at..];
    assert forall k :: 0 <= k < at ==> r[k] == s[k];
    assert forall k :: at < k < |r| ==> r[k] == s[k - 1];
    forall i, j | 0 <= i < j < |r|
      ensures !less(r[j], r[i])
    {
      if i == at {
        assert less(x, s[j - 1]);
      }
    }
  }

  /** Nothing after that position is like an element that x is like. */
  lemma InsertLike<T(!new)>(s: seq<T>, at: nat, x: T, y: T, less: (T, T) -> bool)
    requires Weak(less) && Fits(s, at, x, less)
    ensures Like(s[..at] + [x] + s[at..], y, less) == Like(s + [x], y, less)
  {
    hide Like;
    LikeJoin(s[..at] + [x], s[at..], y, less);
    LikeJoin(s[..at], [x], y, less);
    LikeJoin(s[..at], s[at..], y, less);
    LikeJoin(s, [x], y, less);
    LikeOne(x, y, less);
    assert s == s[..at] + s[at..];
    if !less(x, y) && !less(y, x) {
      forall k | 0 <= k < |s[at..]|
        ensures less(y, s[at..][k]) || less(s[at..][k], y)
      {
        assert less(x, s[at + k]);
      }
      LikeNone(s[at..], y, less);
    }
  }

  lemma InsertStable<T(!new)>(s: seq<T>, at: nat, x: T, t: seq<T>, less: (T, T) -> bool)
    requires Weak(less) && Fits(s, at, x, less) && Stable(s, t, less)
    ensures Stable(s[..at] + [x] + s[at..], t + [x], less)
  {
    hide Like;
    forall y
      ensures Like(s[..at] + [x] + s[at..], y, less) == Like(t + [x], y, less)
    {
      InsertLike(s, at, x, y, less);
      LikeJoin(s, [x], y, less);
      LikeJoin(t, [x], y, less);
    }
  }

  lemma InsertNext<T(!new)>(s: seq<T>, at: nat, ts: seq<T>, i: nat, less: (T, T) -> bool)
    requires Weak(less) && i < |ts| && multiset(s) == multiset(ts[..i]) && Sorted(s, less) && Stable(s, ts[..i], less)
    requires at <= |s| && (at < |s| ==> less(ts[i], s[at])) && (at > 0 ==> !less(ts[i], s[at - 1]))
    ensures var r := s[..at] + [ts[i]] + s[at..];
            multiset(r) == multiset(ts[..i + 1]) && Sorted(r, less) && Stable(r, ts[..i + 1], less)
  {
    hide Sorted, Weak, Stable, Fits;
    FitsSorted(s, at, ts[i], less);
    InsertSorted(s, at, ts[i], less);
    InsertStable(s, at, ts[i], ts[..i], less);
    assert ts[..i + 1] == ts[..i] + [ts[i]];
  }

  method Place<T(!new)>(s: seq<T>, x: T, less: (T, T) -> bool) returns (at: nat)
    ensures at <= |s| && (at < |s| ==> less(x, s[at])) && (at > 0 ==> !less(x, s[at - 1]))
  {
    at := |s|;
    while at > 0 && less(x, s[at - 1])
      invariant 0 <= at <= |s| && (at < |s| ==> less(x, s[at]))
    {
      at := at - 1;
    }
  }

  lemma NothingSorted<T(!new)>(less: (T, T) -> bool)
    ensures Sorted([], less) && Stable([], [], less)
  {}

  method StableSort<T(!new)>(ts: seq<T>, less: (T, T) -> bool) returns (s: seq<T>)
    requires Weak(less)
    ensures multiset(s) == multiset(ts) && Sorted(s, less) && Stable(s, ts, less)
  {
    hide Sorted, Weak, Stable, Fits;
    s := [];
    NothingSorted(less);
    for i := 0 to |ts|
      invariant multiset(s) == multiset(ts[..i]) && Sorted(s, less) && Stable(s, ts[..i], less)
    {
      var at := Place(s, ts[i], less);
      InsertNext(s, at, ts, i, less);
      s := s[..at] + [ts[i]] + s[at..];
    }
    assert ts[..|ts|] == ts;
  }
}

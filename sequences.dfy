/** Sequence shapes the grouping of holidays is built from, stated once for
    any element type. */
module Sequences {

  /** The sequences of `xss` joined in order. */
  function Concat<T>(xss: seq<seq<T>>): seq<T> {
    if xss == [] then [] else xss[0] + Concat(xss[1..])
  }

  lemma TakeSnoc<T>(xs: seq<T>, k: nat)
    requires k < |xs|
    ensures xs[..k + 1] == xs[..k] + [xs[k]]
  {
  }

  lemma TakeAll<T>(xs: seq<T>)
    ensures xs[..|xs|] == xs
  {
  }

  lemma DropSplit<T>(xs: seq<T>, i: nat, j: nat)
    requires i <= j <= |xs|
    ensures xs[i..] == xs[i..j] + xs[j..]
  {
  }

  lemma AppendNil<T>(xs: seq<T>, ys: seq<T>, zs: seq<T>)
    requires zs == xs + ys && ys == []
    ensures zs == xs
  {
  }

  lemma SliceOne<T>(xs: seq<T>, i: nat)
    requires i < |xs|
    ensures xs[i..i + 1] == [xs[i]]
  {
  }

  lemma SliceSnoc<T>(xs: seq<T>, i: nat, j: nat)
    requires i <= j < |xs|
    ensures xs[i..j + 1] == xs[i..j] + [xs[j]]
  {
  }

  lemma ConcatCons<T>(xss: seq<seq<T>>, x: seq<T>, rest: seq<seq<T>>, tail: seq<T>)
    requires xss == [x] + rest && Concat(rest) == tail
    ensures Concat(xss) == x + tail
  {
    assert xss[0] == x && xss[1..] == rest;
  }

  /** `f` applied to every element of `xs`, the results joined in order. */
  function FlatMap<T, U>(xs: seq<T>, f: T -> seq<U>): seq<U> {
    if xs == [] then [] else f(xs[0]) + FlatMap(xs[1..], f)
  }

  lemma {:induction false} FlatMapSnoc<T, U>(xs: seq<T>, x: T, f: T -> seq<U>)
    ensures FlatMap(xs + [x], f) == FlatMap(xs, f) + f(x)
  {
    if xs != [] {
      assert (xs + [x])[0] == xs[0];
      assert (xs + [x])[1..] == xs[1..] + [x];
      FlatMapSnoc(xs[1..], x, f);
      assert f(xs[0]) + (FlatMap(xs[1..], f) + f(x)) == (f(xs[0]) + FlatMap(xs[1..], f)) + f(x);
    } else {
      assert [x][1..] == [];
      assert FlatMap([x], f) == f(x) + [];
    }
  }

  lemma {:induction false} FlatMapAppend<T, U>(xs: seq<T>, ys: seq<T>, f: T -> seq<U>)
    ensures FlatMap(xs + ys, f) == FlatMap(xs, f) + FlatMap(ys, f)
  {
    if xs != [] {
      assert (xs + ys)[0] == xs[0];
      assert (xs + ys)[1..] == xs[1..] + ys;
      FlatMapAppend(xs[1..], ys, f);
      assert f(xs[0]) + (FlatMap(xs[1..], f) + FlatMap(ys, f)) == (f(xs[0]) + FlatMap(xs[1..], f)) + FlatMap(ys, f);
    } else {
      assert xs + ys == ys;
    }
  }

  /** Elements `f` maps alike give the same joined result. */
  lemma {:induction false} FlatMapPointwise<T, U>(xs: seq<T>, ys: seq<T>, f: T -> seq<U>)
    requires |xs| == |ys|
    requires forall i :: 0 <= i < |xs| ==> f(xs[i]) == f(ys[i])
    ensures FlatMap(xs, f) == FlatMap(ys, f)
  {
    if xs != [] {
      assert forall i :: 0 <= i < |xs| - 1 ==> xs[1..][i] == xs[i + 1] && ys[1..][i] == ys[i + 1];
      FlatMapPointwise(xs[1..], ys[1..], f);
    }
  }

  /** An element `f` maps to nothing can be left out. */
  lemma FlatMapDrop<T, U>(xs: seq<T>, x: T, ys: seq<T>, f: T -> seq<U>)
    requires f(x) == []
    ensures FlatMap(xs + [x] + ys, f) == FlatMap(xs + ys, f)
  {
    FlatMapAppend(xs + [x], ys, f);
    FlatMapSnoc(xs, x, f);
    FlatMapAppend(xs, ys, f);
  }

  /** What `FlatMap` yields is what `f` yields for some element. */
  lemma {:induction false} FlatMapMembers<T, U>(xs: seq<T>, f: T -> seq<U>)
    ensures forall y :: y in FlatMap(xs, f) ==> exists i :: 0 <= i < |xs| && y in f(xs[i])
    ensures forall i, y :: 0 <= i < |xs| && y in f(xs[i]) ==> y in FlatMap(xs, f)
  {
    if xs != [] {
      var rest := xs[1..];
      FlatMapMembers(rest, f);
      assert FlatMap(xs, f) == f(xs[0]) + FlatMap(rest, f);
      forall y | y in FlatMap(xs, f)
        ensures exists i :: 0 <= i < |xs| && y in f(xs[i])
      {
        if y !in f(xs[0]) {
          assert y in FlatMap(rest, f);
          var i :| 0 <= i < |rest| && y in f(rest[i]);
          assert rest[i] == xs[i + 1];
        }
      }
      forall i, y | 0 <= i < |xs| && y in f(xs[i])
        ensures y in FlatMap(xs, f)
      {
        if i > 0 {
          assert xs[i] == rest[i - 1];
        }
      }
    }
  }

  /** The first `m` elements of `xs`, each one but the last of `xs` followed
      by what `gap` puts between it and its successor. */
  function Interleave<T>(xs: seq<T>, m: nat, gap: (T, T) -> seq<T>): seq<T>
    requires m <= |xs|
  {
    if m == 0 then []
    else Interleave(xs, m - 1, gap) + [xs[m - 1]] + (if m < |xs| then gap(xs[m - 1], xs[m]) else [])
  }

  lemma InterleaveStep<T>(prefix: seq<T>, acc: seq<T>, xs: seq<T>, m: nat, gap: (T, T) -> seq<T>)
    requires m < |xs|
    requires acc == prefix + Interleave(xs, m, gap)
    ensures m + 1 < |xs| ==> (acc + [xs[m]]) + gap(xs[m], xs[m + 1]) == prefix + Interleave(xs, m + 1, gap)
    ensures m + 1 == |xs| ==> acc + [xs[m]] == prefix + Interleave(xs, m + 1, gap)
  {
    var done := Interleave(xs, m, gap);
    var between := if m + 1 < |xs| then gap(xs[m], xs[m + 1]) else [];
    assert Interleave(xs, m + 1, gap) == done + [xs[m]] + between;
    assert prefix + (done + [xs[m]] + between) == ((prefix + done) + [xs[m]]) + between;
    if m + 1 == |xs| {
      assert ((prefix + done) + [xs[m]]) + [] == (prefix + done) + [xs[m]];
    }
  }

  /** With a `gap` that puts nothing between two elements, interleaving
      gives the elements back. */
  lemma {:induction false} InterleaveEmptyGaps<T>(xs: seq<T>, m: nat, gap: (T, T) -> seq<T>)
    requires m <= |xs|
    requires forall k :: 0 < k < |xs| ==> gap(xs[k - 1], xs[k]) == []
    ensures Interleave(xs, m, gap) == xs[..m]
  {
    if m > 0 {
      InterleaveEmptyGaps(xs, m - 1, gap);
      assert xs[..m] == xs[..m - 1] + [xs[m - 1]];
      if m < |xs| {
        assert gap(xs[m - 1], xs[m]) == [];
      }
    }
  }

  /** When `f` maps everything a gap holds to nothing, interleaving adds
      nothing to what `f` yields. */
  lemma {:induction false} FlatMapInterleave<T, U>(xs: seq<T>, m: nat, gap: (T, T) -> seq<T>, f: T -> seq<U>)
    requires m <= |xs|
    requires forall k :: 0 < k < |xs| ==> FlatMap(gap(xs[k - 1], xs[k]), f) == []
    ensures FlatMap(Interleave(xs, m, gap), f) == FlatMap(xs[..m], f)
  {
    if m > 0 {
      var done := Interleave(xs, m - 1, gap);
      var between := if m < |xs| then gap(xs[m - 1], xs[m]) else [];
      assert Interleave(xs, m, gap) == (done + [xs[m - 1]]) + between;
      FlatMapInterleave(xs, m - 1, gap, f);
      FlatMapAppend(done + [xs[m - 1]], between, f);
      FlatMapSnoc(done, xs[m - 1], f);
      TakeSnoc(xs, m - 1);
      FlatMapSnoc(xs[..m - 1], xs[m - 1], f);
      assert FlatMap(between, f) == [];
    }
  }
}

/** LINQ's `Where(...).Select(...)` over a list, as one partial map. */
module Sequences {
  import opened Wrappers

  /** The images of the elements `f` keeps, in order. */
  function FilterMap<A, B>(xs: seq<A>, f: A -> Option<B>): seq<B> {
    if xs == [] then []
    else FilterMap(xs[..|xs| - 1], f) + match f(xs[|xs| - 1]) case Some(y) => [y] case None => []
  }

  /** At most one image per element, and every image comes from an element `f` keeps. */
  lemma {:induction false} FilterMapSound<A, B>(xs: seq<A>, f: A -> Option<B>)
    ensures |FilterMap(xs, f)| <= |xs|
    ensures forall y | y in FilterMap(xs, f) :: exists k | 0 <= k < |xs| :: f(xs[k]) == Some(y)
  {
    if xs != [] {
      var before := xs[..|xs| - 1];
      FilterMapSound(before, f);
      forall y | y in FilterMap(xs, f)
        ensures exists k | 0 <= k < |xs| :: f(xs[k]) == Some(y)
      {
        if y in FilterMap(before, f) {
          var k :| 0 <= k < |before| && f(before[k]) == Some(y);
          assert before[k] == xs[k];
        } else {
          assert f(xs[|xs| - 1]) == Some(y);
        }
      }
    }
  }

  /** The image of every element `f` keeps is in the result. */
  lemma {:induction false} FilterMapComplete<A, B>(xs: seq<A>, f: A -> Option<B>)
    ensures forall k | 0 <= k < |xs| && f(xs[k]).Some? :: f(xs[k]).value in FilterMap(xs, f)
  {
    if xs != [] {
      var before := xs[..|xs| - 1];
      FilterMapComplete(before, f);
      forall k | 0 <= k < |xs| && f(xs[k]).Some?
        ensures f(xs[k]).value in FilterMap(xs, f)
      {
        if k < |before| {
          assert before[k] == xs[k];
          assert f(xs[k]).value in FilterMap(before, f);
        }
      }
    }
  }

  /** When `f` keeps every element, the result is their images one for one and in order. */
  lemma {:induction false} FilterMapAllKept<A, B>(xs: seq<A>, f: A -> Option<B>)
    requires forall k | 0 <= k < |xs| :: f(xs[k]).Some?
    ensures |FilterMap(xs, f)| == |xs|
    ensures forall k | 0 <= k < |xs| :: Some(FilterMap(xs, f)[k]) == f(xs[k])
  {
    if xs != [] {
      var before := xs[..|xs| - 1];
      assert forall k | 0 <= k < |before| :: before[k] == xs[k];
      FilterMapAllKept(before, f);
    }
  }

  /** The positions of the elements `f` keeps, in increasing order. */
  function KeptPositions<A, B>(xs: seq<A>, f: A -> Option<B>): seq<int> {
    if xs == [] then []
    else KeptPositions(xs[..|xs| - 1], f) + if f(xs[|xs| - 1]).Some? then [|xs| - 1] else []
  }

  /**
   * `ys` holds one image per element `f` keeps, in the elements' order:
   * `idx` lists exactly the kept positions of `xs`, increasing, and `ys[k]`
   * is the image of `xs[idx[k]]`.
   */
  predicate KeptInOrder<A, B(==)>(xs: seq<A>, f: A -> Option<B>, ys: seq<B>, idx: seq<int>) {
    && |idx| == |ys|
    && (forall k | 0 <= k < |idx| :: 0 <= idx[k] < |xs| && f(xs[idx[k]]) == Some(ys[k]))
    && (forall j, k | 0 <= j < k < |idx| :: idx[j] < idx[k])
    && (forall i | 0 <= i < |xs| :: i in idx <==> f(xs[i]).Some?)
  }

  /** The result is the images of the kept elements, one for one and in order. */
  lemma {:induction false} FilterMapInOrder<A, B>(xs: seq<A>, f: A -> Option<B>)
    ensures KeptInOrder(xs, f, FilterMap(xs, f), KeptPositions(xs, f))
  {
    if xs != [] {
      var n := |xs| - 1;
      var before := xs[..n];
      FilterMapInOrder(before, f);
      var ys0, idx0 := FilterMap(before, f), KeptPositions(before, f);
      assert forall i | 0 <= i < n :: before[i] == xs[i];
      if f(xs[n]).Some? {
        var ys, idx := ys0 + [f(xs[n]).value], idx0 + [n];
        assert FilterMap(xs, f) == ys && KeptPositions(xs, f) == idx;
        forall k | 0 <= k < |idx| ensures 0 <= idx[k] < |xs| && f(xs[idx[k]]) == Some(ys[k]) {
          if k < |idx0| {
            assert idx[k] == idx0[k] && ys[k] == ys0[k];
          }
        }
        forall i | 0 <= i < |xs| ensures i in idx <==> f(xs[i]).Some? {
          if i < n {
            assert i in idx0 <==> f(before[i]).Some?;
            assert n !in idx0;
          }
        }
      } else {
        assert FilterMap(xs, f) == ys0 && KeptPositions(xs, f) == idx0;
        assert n !in idx0;
      }
    }
  }

  /** When `f` keeps nothing, no position is kept. */
  lemma {:induction false} NothingKeptNoPositions<A, B>(xs: seq<A>, f: A -> Option<B>)
    requires forall i | 0 <= i < |xs| :: f(xs[i]).None?
    ensures KeptPositions(xs, f) == []
  {
    if xs != [] {
      NothingKeptNoPositions(xs[..|xs| - 1], f);
    }
  }

  /** Prepending one element puts its image, if kept, in front. */
  lemma {:induction false} FilterMapCons<A, B>(x: A, xs: seq<A>, f: A -> Option<B>)
    ensures FilterMap([x] + xs, f) == (match f(x) case Some(y) => [y] case None => []) + FilterMap(xs, f)
  {
    if xs == [] {
      assert [x] + xs == [x] && [x][..0] == [];
    } else {
      var n := |xs| - 1;
      assert ([x] + xs)[..|xs|] == [x] + xs[..n];
      assert ([x] + xs)[|xs|] == xs[n];
      FilterMapCons(x, xs[..n], f);
    }
  }

  /** Appending one element extends the result by that element's image, if kept. */
  lemma FilterMapSnoc<A, B>(xs: seq<A>, x: A, f: A -> Option<B>)
    ensures FilterMap(xs + [x], f) == FilterMap(xs, f) + match f(x) case Some(y) => [y] case None => []
  {
    assert (xs + [x])[..|xs|] == xs;
  }
}

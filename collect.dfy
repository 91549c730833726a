/**
 * The shape shared by every `$(...).each((i, el) => { if (keep) list.push(record) })` loop of
 * the scrapers: keep the elements a predicate accepts, turn each into a record, in document
 * order.
 */
module Collecting {

  /** The records of the kept elements, in order. Defined from the end so that it follows a
      loop that pushes one element at a time. */
  function Collect<T, U>(xs: seq<T>, keep: T -> bool, f: T -> U): (ys: seq<U>)
    ensures |ys| <= |xs|
    decreases |xs|
  {
    if xs == [] then []
    else
      var init := Collect(xs[..|xs| - 1], keep, f);
      if keep(xs[|xs| - 1]) then init + [f(xs[|xs| - 1])] else init
  }

  /** One more element: it is pushed exactly when it is kept. */
  lemma CollectSnoc<T, U>(xs: seq<T>, x: T, keep: T -> bool, f: T -> U)
    ensures Collect(xs + [x], keep, f) == Collect(xs, keep, f) + (if keep(x) then [f(x)] else [])
  {
    assert (xs + [x])[..|xs|] == xs;
  }

  /** Collecting distributes over concatenation: what is kept from an earlier part of the
      document comes before what is kept from a later part. */
  lemma {:induction false} CollectAppend<T, U>(a: seq<T>, b: seq<T>, keep: T -> bool, f: T -> U)
    ensures Collect(a + b, keep, f) == Collect(a, keep, f) + Collect(b, keep, f)
    decreases |b|
  {
    if b == [] {
      assert a + b == a;
    } else {
      var b' := b[..|b| - 1];
      var x := b[|b| - 1];
      assert a + b == (a + b') + [x];
      assert b == b' + [x];
      CollectAppend(a, b', keep, f);
      CollectSnoc(a + b', x, keep, f);
      CollectSnoc(b', x, keep, f);
    }
  }

  /** The indices of the kept elements, in increasing order. */
  ghost function KeptIndices<T>(xs: seq<T>, keep: T -> bool): (idx: seq<nat>)
    ensures forall j :: 0 <= j < |idx| ==> idx[j] < |xs| && keep(xs[idx[j]])
    ensures forall j, k :: 0 <= j < k < |idx| ==> idx[j] < idx[k]
    ensures forall i :: 0 <= i < |xs| && keep(xs[i]) ==> i in idx
    decreases |xs|
  {
    if xs == [] then []
    else
      var init := KeptIndices(xs[..|xs| - 1], keep);
      if keep(xs[|xs| - 1]) then init + [|xs| - 1] else init
  }

  /** The full meaning of `Collect`: its j-th record is made from the j-th kept element, so the
      result holds one record per kept element, in document order, and nothing else. */
  lemma {:induction false} CollectIsKeptInOrder<T, U>(xs: seq<T>, keep: T -> bool, f: T -> U)
    ensures var idx := KeptIndices(xs, keep);
      && |Collect(xs, keep, f)| == |idx|
      && forall j :: 0 <= j < |idx| ==> Collect(xs, keep, f)[j] == f(xs[idx[j]])
    decreases |xs|
  {
    if xs != [] {
      var init := xs[..|xs| - 1];
      CollectIsKeptInOrder(init, keep, f);
      var idx := KeptIndices(xs, keep);
      var idx0 := KeptIndices(init, keep);
      forall j | 0 <= j < |idx0|
        ensures xs[idx0[j]] == init[idx0[j]]
      {
      }
    }
  }

  /** A record is in the result exactly when some kept element produces it. */
  lemma CollectMembers<T, U>(xs: seq<T>, keep: T -> bool, f: T -> U, y: U)
    ensures y in Collect(xs, keep, f) <==> exists i :: 0 <= i < |xs| && keep(xs[i]) && f(xs[i]) == y
  {
    CollectIsKeptInOrder(xs, keep, f);
    var idx := KeptIndices(xs, keep);
    var ys := Collect(xs, keep, f);
    if y in ys {
      var j :| 0 <= j < |ys| && ys[j] == y;
      assert keep(xs[idx[j]]) && f(xs[idx[j]]) == y;
    }
    if i :| 0 <= i < |xs| && keep(xs[i]) && f(xs[i]) == y {
      var j :| 0 <= j < |idx| && idx[j] == i;
      assert ys[j] == y;
    }
  }
}

/**
 * The JavaScript array operations the front end chains together
 * (`map`, `filter`, `find`, `indexOf`), as functions over sequences,
 * with the facts the screens rely on.
 */
module Seqs {
  import opened Wrappers

  /** `xs.map(f)`: one result per element, in order. */
  function Map<A, B>(xs: seq<A>, f: A -> B): (ys: seq<B>)
    ensures |ys| == |xs|
    ensures forall i :: 0 <= i < |xs| ==> ys[i] == f(xs[i])
  {
    if xs == [] then [] else [f(xs[0])] + Map(xs[1..], f)
  }

  /** `xs.filter(p)`: the elements that satisfy `p`, in their original order. */
  function Filter<A>(xs: seq<A>, p: A -> bool): (ys: seq<A>)
    ensures |ys| <= |xs|
    ensures forall k :: 0 <= k < |ys| ==> p(ys[k])
  {
    if xs == [] then []
    else if p(xs[0]) then [xs[0]] + Filter(xs[1..], p)
    else Filter(xs[1..], p)
  }

  /** The positions of `xs` whose element satisfies `p`, in increasing order. */
  function Positions<A>(xs: seq<A>, p: A -> bool): (idx: seq<nat>)
    ensures |idx| == |Filter(xs, p)|
  {
    if xs == [] then []
    else
      var rest := Shift(Positions(xs[1..], p));
      if p(xs[0]) then [0] + rest else rest
  }

  /** Every position moved one place to the right. */
  function Shift(idx: seq<nat>): (r: seq<nat>)
    ensures |r| == |idx|
    ensures forall k :: 0 <= k < |idx| ==> r[k] == idx[k] + 1
  {
    seq(|idx|, k requires 0 <= k < |idx| => idx[k] + 1)
  }

  /** The k-th element `Filter` keeps is the element at the k-th position. */
  lemma {:induction false} PositionsPick<A>(xs: seq<A>, p: A -> bool)
    ensures forall k :: 0 <= k < |Positions(xs, p)| ==>
      Positions(xs, p)[k] < |xs| && Filter(xs, p)[k] == xs[Positions(xs, p)[k]]
  {
    if xs != [] {
      var tail := xs[1..];
      PositionsPick(tail, p);
      var rest, idx := Positions(tail, p), Positions(xs, p);
      var ys, ys' := Filter(xs, p), Filter(tail, p);
      var d := if p(xs[0]) then 1 else 0;
      assert idx == (if p(xs[0]) then [0] else []) + Shift(rest);
      assert ys == (if p(xs[0]) then [xs[0]] else []) + ys';
      forall k | 0 <= k < |idx|
        ensures idx[k] < |xs| && ys[k] == xs[idx[k]]
      {
        if k >= d {
          assert idx[k] == rest[k - d] + 1 && ys[k] == ys'[k - d];
          assert xs[idx[k]] == tail[rest[k - d]];
        }
      }
    }
  }

  /** The positions `Filter` keeps are strictly increasing. */
  lemma {:induction false} PositionsIncrease<A>(xs: seq<A>, p: A -> bool)
    ensures forall k, l :: 0 <= k < l < |Positions(xs, p)| ==> Positions(xs, p)[k] < Positions(xs, p)[l]
  {
    if xs != [] {
      PositionsIncrease(xs[1..], p);
      var rest, idx := Positions(xs[1..], p), Positions(xs, p);
      var d := if p(xs[0]) then 1 else 0;
      assert idx == (if p(xs[0]) then [0] else []) + Shift(rest);
      forall k, l | 0 <= k < l < |idx| ensures idx[k] < idx[l] {
        assert idx[l] == rest[l - d] + 1;
        if k >= d {
          assert idx[k] == rest[k - d] + 1;
        }
      }
    }
  }

  /** Shifting never yields 0, and yields `i` exactly when `i - 1` was there. */
  lemma ShiftMembership(idx: seq<nat>, i: nat)
    ensures 0 !in Shift(idx)
    ensures i > 0 ==> (i in Shift(idx) <==> i - 1 in idx)
  {
  }

  /** A position is kept exactly when its element satisfies `p`. */
  lemma {:induction false} PositionsExact<A>(xs: seq<A>, p: A -> bool)
    ensures forall i :: 0 <= i < |xs| ==> (p(xs[i]) <==> i in Positions(xs, p))
  {
    if xs != [] {
      var tail := xs[1..];
      PositionsExact(tail, p);
      var rest := Positions(tail, p);
      var shifted := Shift(rest);
      var idx := Positions(xs, p);
      assert idx == (if p(xs[0]) then [0] else []) + shifted;
      forall i | 0 <= i < |xs|
        ensures p(xs[i]) <==> i in idx
      {
        ShiftMembership(rest, i);
        assert i in idx <==> (p(xs[0]) && i == 0) || i in shifted;
        if i > 0 {
          assert xs[i] == tail[i - 1];
        }
      }
    }
  }

  /**
   * `Filter(xs, p)` is the sub-sequence of `xs` at `Positions(xs, p)`:
   * the positions are strictly increasing, they are exactly those whose
   * element satisfies `p`, and the k-th kept element is the element at
   * the k-th position. So filtering never adds, repeats or reorders.
   */
  lemma FilterIsSelection<A>(xs: seq<A>, p: A -> bool)
    ensures forall k :: 0 <= k < |Positions(xs, p)| ==>
      Positions(xs, p)[k] < |xs| && Filter(xs, p)[k] == xs[Positions(xs, p)[k]]
    ensures forall k, l :: 0 <= k < l < |Positions(xs, p)| ==> Positions(xs, p)[k] < Positions(xs, p)[l]
    ensures forall i :: 0 <= i < |xs| ==> (p(xs[i]) <==> i in Positions(xs, p))
  {
    PositionsPick(xs, p);
    PositionsIncrease(xs, p);
    PositionsExact(xs, p);
  }

  /** Filtering keeps exactly the elements of `xs` that satisfy `p`. */
  lemma {:induction false} FilterMembership<A>(xs: seq<A>, p: A -> bool, x: A)
    ensures x in Filter(xs, p) <==> x in xs && p(x)
  {
    FilterIsSelection(xs, p);
    var idx := Positions(xs, p);
    if x in Filter(xs, p) {
      var k :| 0 <= k < |Filter(xs, p)| && Filter(xs, p)[k] == x;
      assert xs[idx[k]] == x;
    }
    if x in xs && p(x) {
      var i :| 0 <= i < |xs| && xs[i] == x;
      assert i in idx;
      var k :| 0 <= k < |idx| && idx[k] == i;
      assert Filter(xs, p)[k] == x;
    }
  }

  /** A filter every element passes returns the sequence unchanged. */
  lemma {:induction false} FilterKeepsAll<A>(xs: seq<A>, p: A -> bool)
    requires forall i :: 0 <= i < |xs| ==> p(xs[i])
    ensures Filter(xs, p) == xs
  {
    if xs != [] {
      FilterKeepsAll(xs[1..], p);
      assert [xs[0]] + xs[1..] == xs;
    }
  }

  /**
   * `xs.find(p)`: the first element that satisfies `p`, or `None`
   * (`undefined`) when there is none.
   */
  function Find<A>(xs: seq<A>, p: A -> bool): (r: Option<A>)
    ensures r.None? <==> forall i :: 0 <= i < |xs| ==> !p(xs[i])
    ensures r.Some? ==> exists i :: 0 <= i < |xs| && xs[i] == r.value && p(xs[i]) && forall j :: 0 <= j < i ==> !p(xs[j])
  {
    if xs == [] then None
    else if p(xs[0]) then Some(xs[0])
    else
      var r := Find(xs[1..], p);
      assert r.Some? ==> exists i :: 1 <= i < |xs| && xs[i] == r.value && p(xs[i]) && forall j :: 0 <= j < i ==> !p(xs[j]) by {
        if r.Some? {
          var i :| 0 <= i < |xs| - 1 && xs[1..][i] == r.value && p(xs[1..][i]) && forall j :: 0 <= j < i ==> !p(xs[1..][j]);
          assert xs[i + 1] == r.value;
          forall j | 0 <= j < i + 1 ensures !p(xs[j]) {
            if j > 0 { assert xs[j] == xs[1..][j - 1]; }
          }
        }
      }
      r
  }

  /**
   * `xs.filter(p)[0]` is `xs.find(p)`: the filtered list is empty exactly
   * when nothing is found, and otherwise starts with the first match.
   */
  lemma {:induction false} FilterHeadIsFind<A>(xs: seq<A>, p: A -> bool)
    ensures Filter(xs, p) == [] <==> Find(xs, p).None?
    ensures Filter(xs, p) != [] ==> Filter(xs, p)[0] == Find(xs, p).value
  {
    if xs != [] && !p(xs[0]) {
      FilterHeadIsFind(xs[1..], p);
    }
  }

  /**
   * `xs.indexOf(x)`: the position of the first element equal to `x`,
   * or -1 when `x` does not occur.
   */
  function IndexOf<A(==)>(xs: seq<A>, x: A): (i: int)
    ensures i == -1 <==> x !in xs
    ensures 0 <= i ==> i < |xs| && xs[i] == x && x !in xs[..i]
    ensures -1 <= i
  {
    if xs == [] then -1
    else if xs[0] == x then 0
    else
      var j := IndexOf(xs[1..], x);
      assert j >= 0 ==> xs[..j + 1] == [xs[0]] + xs[1..][..j];
      if j == -1 then -1 else j + 1
  }
}

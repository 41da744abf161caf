/**
 * `countDocuments(filter)` over a collection held as a sequence: the number
 * of elements a filter accepts, and the identities the statistics rely on.
 */
module Counting {

  /** How many elements of `xs` satisfy `p`. */
  function Count<T>(xs: seq<T>, p: T -> bool): (n: nat)
    ensures n <= |xs|
  {
    if xs == [] then 0
    else Count(xs[..|xs| - 1], p) + (if p(xs[|xs| - 1]) then 1 else 0)
  }

  lemma {:induction false} CountEmpty<T>(xs: seq<T>, p: T -> bool)
    requires forall i | 0 <= i < |xs| :: !p(xs[i])
    ensures Count(xs, p) == 0
  {
    if xs != [] {
      CountEmpty(xs[..|xs| - 1], p);
    }
  }

  lemma {:induction false} CountFull<T>(xs: seq<T>, p: T -> bool)
    requires forall i | 0 <= i < |xs| :: p(xs[i])
    ensures Count(xs, p) == |xs|
  {
    if xs != [] {
      CountFull(xs[..|xs| - 1], p);
    }
  }

  /** Counting distributes over concatenation. */
  lemma {:induction false} CountAppend<T>(xs: seq<T>, ys: seq<T>, p: T -> bool)
    ensures Count(xs + ys, p) == Count(xs, p) + Count(ys, p)
  {
    if ys == [] {
      assert xs + ys == xs;
    } else {
      var n := |ys| - 1;
      assert (xs + ys)[..|xs + ys| - 1] == xs + ys[..n];
      assert (xs + ys)[|xs + ys| - 1] == ys[n];
      CountAppend(xs, ys[..n], p);
    }
  }

  /** A filter that accepts fewer elements counts fewer. */
  lemma {:induction false} CountMono<T>(xs: seq<T>, p: T -> bool, q: T -> bool)
    requires forall i | 0 <= i < |xs| :: p(xs[i]) ==> q(xs[i])
    ensures Count(xs, p) <= Count(xs, q)
  {
    if xs != [] {
      CountMono(xs[..|xs| - 1], p, q);
    }
  }

  /** Two disjoint filters whose union is `p` split the count of `p`. */
  lemma {:induction false} CountPartition<T>(xs: seq<T>, p: T -> bool, q: T -> bool, r: T -> bool)
    requires forall i | 0 <= i < |xs| :: p(xs[i]) == (q(xs[i]) || r(xs[i]))
    requires forall i | 0 <= i < |xs| :: !(q(xs[i]) && r(xs[i]))
    ensures Count(xs, p) == Count(xs, q) + Count(xs, r)
  {
    if xs != [] {
      CountPartition(xs[..|xs| - 1], p, q, r);
    }
  }

  /** Filters that agree on every element count the same. */
  lemma {:induction false} CountSame<T>(xs: seq<T>, p: T -> bool, q: T -> bool)
    requires forall i | 0 <= i < |xs| :: p(xs[i]) == q(xs[i])
    ensures Count(xs, p) == Count(xs, q)
  {
    if xs != [] {
      CountSame(xs[..|xs| - 1], p, q);
    }
  }

  /** Replacing one element changes the count by at most the change at that position. */
  lemma {:induction false} CountUpdate<T>(xs: seq<T>, k: nat, x: T, p: T -> bool)
    requires k < |xs|
    ensures Count(xs[k := x], p) + (if p(xs[k]) then 1 else 0) == Count(xs, p) + (if p(x) then 1 else 0)
  {
    var ys := xs[k := x];
    if k == |xs| - 1 {
      assert ys[..|ys| - 1] == xs[..|xs| - 1];
    } else {
      assert ys[..|ys| - 1] == xs[..|xs| - 1][k := x];
      CountUpdate(xs[..|xs| - 1], k, x, p);
    }
  }

  /** An element the filter accepts is counted. */
  lemma {:induction false} CountHit<T>(xs: seq<T>, i: nat, p: T -> bool)
    requires i < |xs| && p(xs[i])
    ensures Count(xs, p) >= 1
  {
    if i < |xs| - 1 {
      CountHit(xs[..|xs| - 1], i, p);
    }
  }
}

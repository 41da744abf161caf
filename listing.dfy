/** `Coupon.find().sort({ createdAt: -1 })`: every coupon, newest first. */
module Listing {
  import opened CouponTable

  /** Ordered by `key`, largest first. */
  predicate Descending<T>(xs: seq<T>, key: T -> int) {
    forall i, j | 0 <= i < j < |xs| :: key(xs[i]) >= key(xs[j])
  }

  /** A head no smaller than the first element extends a descending sequence. */
  lemma ConsDescending<T>(head: T, xs: seq<T>, key: T -> int)
    requires Descending(xs, key) && (xs == [] || key(xs[0]) <= key(head))
    ensures Descending([head] + xs, key)
  {
    var ys := [head] + xs;
    forall i, j | 0 <= i < j < |ys|
      ensures key(ys[i]) >= key(ys[j])
    {
      if i == 0 && j > 1 {
        assert key(xs[0]) >= key(xs[j - 1]);
      }
    }
  }

  /** Puts `x` in its place in `xs`, already in descending order, ahead of any ties. */
  function Insert<T>(x: T, xs: seq<T>, key: T -> int): (out: seq<T>)
    requires Descending(xs, key)
    ensures Descending(out, key)
    ensures multiset(out) == multiset(xs) + multiset{x}
    ensures out[0] == x || (xs != [] && out[0] == xs[0])
  {
    if xs == [] || key(xs[0]) <= key(x) then
      ConsDescending(x, xs, key);
      [x] + xs
    else
      var head, rest := xs[0], Insert(x, xs[1..], key);
      assert xs == [head] + xs[1..];
      ConsDescending(head, rest, key);
      [head] + rest
  }

  /** Insertion sort: descending by `key`, and a permutation of its input. */
  function SortDescending<T>(xs: seq<T>, key: T -> int): (out: seq<T>)
    ensures Descending(out, key)
    ensures multiset(out) == multiset(xs)
  {
    if xs == [] then []
    else
      assert xs == [xs[0]] + xs[1..];
      Insert(xs[0], SortDescending(xs[1..], key), key)
  }

  function CreatedAt(r: Row): int {
    r.1.createdAt
  }

  /** The GET listing: every stored coupon exactly once, newest first; the table is not touched. */
  function NewestFirst(t: Table): (rows: seq<Row>)
    requires Valid(t)
    ensures Descending(rows, CreatedAt)
    ensures multiset(rows) == multiset(Rows(t))
    ensures forall i | 0 <= i < |rows| :: rows[i].0 in t.byId && t.byId[rows[i].0] == rows[i].1
  {
    var all := Rows(t);
    var out := SortDescending(all, CreatedAt);
    assert forall i | 0 <= i < |out| :: out[i] in multiset(all);
    out
  }

  /** Each stored coupon appears in the listing. */
  lemma ListingComplete(t: Table, id: Id)
    requires Valid(t) && id in t.byId
    ensures (id, t.byId[id]) in NewestFirst(t)
  {
    RowsComplete(t, id);
    var rows := Rows(t);
    var i :| 0 <= i < |rows| && rows[i] == (id, t.byId[id]);
    assert rows[i] in multiset(rows);
  }
}

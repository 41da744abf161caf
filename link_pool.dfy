/**
 * The collection of the `StoredLink` model as a sequence in natural order,
 * the `find({ isUsed: false }).limit(n)` query over it, and coupon
 * generation, which turns picked links into coupons and marks each link
 * whose coupon was stored as used.
 */
module LinkPool {
  import opened Wrappers
  import opened Clock
  import opened Models
  import opened CouponTable
  import opened Counting
  import opened Batches

  predicate Unused(l: StoredLink) {
    !l.isUsed
  }

  /** The positions of the unused links, in collection order. */
  function UnusedIndices(pool: seq<StoredLink>): (ix: seq<nat>)
    ensures |ix| == Count(pool, Unused)
    ensures forall k | 0 <= k < |ix| :: ix[k] < |pool| && Unused(pool[ix[k]])
    ensures forall a, b | 0 <= a < b < |ix| :: ix[a] < ix[b]
  {
    if pool == [] then []
    else
      var n := |pool| - 1;
      var before := UnusedIndices(pool[..n]);
      assert forall k | 0 <= k < |before| :: pool[..n][before[k]] == pool[before[k]];
      if Unused(pool[n]) then before + [n] else before
  }

  /**
   * `StoredLink.find({ isUsed: false }).limit(limit)`: the first `limit`
   * unused links (all of them when there are fewer), as positions in
   * collection order.
   */
  function FirstUnused(pool: seq<StoredLink>, limit: nat): (picks: seq<nat>)
    ensures |picks| == if limit < Count(pool, Unused) then limit else Count(pool, Unused)
    ensures forall k | 0 <= k < |picks| :: picks[k] < |pool| && Unused(pool[picks[k]])
    ensures forall a, b | 0 <= a < b < |picks| :: picks[a] < picks[b]
  {
    var ix := UnusedIndices(pool);
    if limit < |ix| then ix[..limit] else ix
  }

  /**
   * Which creates of the fan-out stored their coupon, in request order:
   * the i-th is refused when validation fails or the code is already in
   * the table as the earlier items left it.
   */
  function Made(t: Table, drafts: seq<CouponFields>, now: Time): (made: seq<bool>)
    requires Valid(t)
    ensures |made| == |drafts|
  {
    if drafts == [] then []
    else
      var n := |drafts| - 1;
      Made(t, drafts[..n], now) + [Create(CreateEach(t, drafts[..n], now).table, drafts[n], now).1.Some?]
  }

  /** A fan-out with no failure stored every coupon. */
  lemma {:induction false} MadeAll(t: Table, drafts: seq<CouponFields>, now: Time)
    requires Valid(t) && !CreateEach(t, drafts, now).failed
    ensures forall k | 0 <= k < |drafts| :: Made(t, drafts, now)[k]
  {
    if drafts != [] {
      var n := |drafts| - 1;
      var b := CreateEach(t, drafts[..n], now);
      assert CreateEach(t, drafts, now) == CreateStep(b, drafts[n], now);
      assert !b.failed && !Refused(b.table, drafts[n], now);
      MadeAll(t, drafts[..n], now);
      var made := Made(t, drafts, now);
      assert made == Made(t, drafts[..n], now) + [Create(b.table, drafts[n], now).1.Some?];
      forall k | 0 <= k < |drafts|
        ensures made[k]
      {
        if k < n {
          assert made[k] == Made(t, drafts[..n], now)[k];
        }
      }
    }
  }

  /** The counting predicate over the `Made` flags: a flag counts when its create stored a coupon. */
  function IsTrue(b: bool): bool { b }

  /** One row per stored coupon. */
  lemma {:induction false} MadeRows(t: Table, drafts: seq<CouponFields>, now: Time)
    requires Valid(t)
    ensures |CreateEach(t, drafts, now).rows| == Count(Made(t, drafts, now), IsTrue)
  {
    if drafts != [] {
      var n := |drafts| - 1;
      MadeRows(t, drafts[..n], now);
      var made := Made(t, drafts, now);
      assert made[..n] == Made(t, drafts[..n], now);
    }
  }

  /**
   * The link side of the fan-out: the link at `picks[k]` gets
   * `isUsed = true`, `usedAt = now` exactly when the k-th create stored
   * its coupon.
   */
  function MarkEach(pool: seq<StoredLink>, picks: seq<nat>, made: seq<bool>, now: Time): (p: seq<StoredLink>)
    requires |made| == |picks| && forall k | 0 <= k < |picks| :: picks[k] < |pool|
    ensures |p| == |pool|
  {
    if picks == [] then pool
    else
      var n := |picks| - 1;
      var p := MarkEach(pool, picks[..n], made[..n], now);
      if made[n] then p[picks[n] := MarkUsed(p[picks[n]], now)] else p
  }

  /** The outcomes of one more create: the earlier outcomes, then whether that create stored its coupon. */
  lemma MadeNext(t: Table, drafts: seq<CouponFields>, k: nat, now: Time)
    requires Valid(t) && k < |drafts|
    ensures Made(t, drafts[..k + 1], now) == Made(t, drafts[..k], now) + [Create(CreateEach(t, drafts[..k], now).table, drafts[k], now).1.Some?]
  {
    assert drafts[..k + 1][..k] == drafts[..k];
  }

  /** Marking after one more outcome: the earlier marks, then the k-th pick exactly when its create stored. */
  lemma MarkEachNext(pool: seq<StoredLink>, picks: seq<nat>, made: seq<bool>, x: bool, now: Time)
    requires |made| < |picks| && forall j | 0 <= j < |picks| :: picks[j] < |pool|
    ensures var k := |made|;
      var p := MarkEach(pool, picks[..k], made, now);
      MarkEach(pool, picks[..k + 1], made + [x], now) == if x then p[picks[k] := MarkUsed(p[picks[k]], now)] else p
  {
    var k := |made|;
    assert picks[..k + 1][..k] == picks[..k];
    assert (made + [x])[..k] == made;
  }

  /** A link that was not picked is untouched. */
  lemma {:induction false} MarkEachKeepsOthers(pool: seq<StoredLink>, picks: seq<nat>, made: seq<bool>, now: Time, j: nat)
    requires |made| == |picks| && forall k | 0 <= k < |picks| :: picks[k] < |pool|
    requires j < |pool| && forall k | 0 <= k < |picks| :: picks[k] != j
    ensures MarkEach(pool, picks, made, now)[j] == pool[j]
  {
    if picks != [] {
      var n := |picks| - 1;
      MarkEachKeepsOthers(pool, picks[..n], made[..n], now, j);
    }
  }

  /** A picked link whose create succeeded is marked used. */
  lemma {:induction false} MarkEachMarks(pool: seq<StoredLink>, picks: seq<nat>, made: seq<bool>, now: Time, k: nat)
    requires |made| == |picks| && forall k | 0 <= k < |picks| :: picks[k] < |pool|
    requires forall a, b | 0 <= a < b < |picks| :: picks[a] != picks[b]
    requires k < |picks| && made[k]
    ensures MarkEach(pool, picks, made, now)[picks[k]] == MarkUsed(pool[picks[k]], now)
  {
    var n := |picks| - 1;
    if k < n {
      MarkEachMarks(pool, picks[..n], made[..n], now, k);
    } else {
      MarkEachKeepsOthers(pool, picks[..n], made[..n], now, picks[n]);
    }
  }

  /** A picked link whose create failed is untouched. */
  lemma {:induction false} MarkEachSkips(pool: seq<StoredLink>, picks: seq<nat>, made: seq<bool>, now: Time, k: nat)
    requires |made| == |picks| && forall k | 0 <= k < |picks| :: picks[k] < |pool|
    requires forall a, b | 0 <= a < b < |picks| :: picks[a] != picks[b]
    requires k < |picks| && !made[k]
    ensures MarkEach(pool, picks, made, now)[picks[k]] == pool[picks[k]]
  {
    var n := |picks| - 1;
    if k < n {
      MarkEachSkips(pool, picks[..n], made[..n], now, k);
    } else {
      MarkEachKeepsOthers(pool, picks[..n], made[..n], now, picks[n]);
    }
  }

  /**
   * Marking distinct unused links lowers the number of unused links by
   * exactly the number of successful creates.
   */
  lemma {:induction false} MarkEachUsesUp(pool: seq<StoredLink>, picks: seq<nat>, made: seq<bool>, now: Time)
    requires |made| == |picks| && forall k | 0 <= k < |picks| :: picks[k] < |pool| && Unused(pool[picks[k]])
    requires forall a, b | 0 <= a < b < |picks| :: picks[a] != picks[b]
    ensures Count(MarkEach(pool, picks, made, now), Unused) + Count(made, IsTrue) == Count(pool, Unused)
  {
    if picks != [] {
      var n := |picks| - 1;
      MarkEachUsesUp(pool, picks[..n], made[..n], now);
      var p := MarkEach(pool, picks[..n], made[..n], now);
      assert made[..n] == made[..|made| - 1];
      if made[n] {
        MarkEachKeepsOthers(pool, picks[..n], made[..n], now, picks[n]);
        CountUpdate(p, picks[n], MarkUsed(p[picks[n]], now), Unused);
      }
    }
  }

  /** Marking keeps every link valid under its schema. */
  lemma {:induction false} MarkEachConforms(pool: seq<StoredLink>, picks: seq<nat>, made: seq<bool>, now: Time)
    requires |made| == |picks| && forall k | 0 <= k < |picks| :: picks[k] < |pool|
    requires forall j | 0 <= j < |pool| :: LinkConforms(pool[j])
    ensures forall j | 0 <= j < |pool| :: LinkConforms(MarkEach(pool, picks, made, now)[j])
  {
    if picks != [] {
      var n := |picks| - 1;
      MarkEachConforms(pool, picks[..n], made[..n], now);
      var p := MarkEach(pool, picks[..n], made[..n], now);
      assert LinkConforms(p[picks[n]]);
    }
  }
}

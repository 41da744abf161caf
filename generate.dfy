/**
 * `POST /api/links/generate-coupons`: turns the first `count` unused
 * links of the pool into coupons named 'generated' that share one
 * end-of-day expiry, and marks each consumed link as used.
 */
module GenerateApi {
  import opened Wrappers
  import opened Clock
  import opened Codes
  import opened Models
  import opened CouponTable
  import opened Counting
  import opened Http
  import opened Db
  import opened Batches
  import opened LinkPool
  import opened CouponsApi

  /** `!n || n < 1` is false. */
  predicate AtLeastOne(n: Option<int>) {
    n.Some? && n.value >= 1
  }

  /** The `Coupon.create` argument for the k-th picked link. */
  function GenerateDrafts(pool: seq<StoredLink>, picks: seq<nat>, creator: string, expiresAt: Time, codes: nat -> NanoCode): (drafts: seq<CouponFields>)
    requires forall k | 0 <= k < |picks| :: picks[k] < |pool|
    ensures |drafts| == |picks|
    ensures forall k | 0 <= k < |picks| ::
      drafts[k] == CouponFields(Some(codes(k)), Some(pool[picks[k]].link), Some("generated"), Some(expiresAt), Some(creator))
  {
    seq(|picks|, k requires 0 <= k < |picks| =>
      CouponFields(Some(codes(k)), Some(pool[picks[k]].link), Some("generated"), Some(expiresAt), Some(creator)))
  }

  /**
   * The `Promise.all` fan-out: create the k-th coupon, then mark the k-th
   * picked link used when its coupon was stored. Each stored coupon
   * consumes one unused link; without a failure, every picked link is
   * consumed.
   */
  function FanOut(s: State, picks: seq<nat>, drafts: seq<CouponFields>, now: Time): (r: (Batch, seq<StoredLink>))
    requires Consistent(s) && |drafts| == |picks|
    requires forall k | 0 <= k < |picks| :: picks[k] < |s.storedLinks| && Unused(s.storedLinks[picks[k]])
    requires forall a, b | 0 <= a < b < |picks| :: picks[a] != picks[b]
    ensures Consistent(s.(coupons := r.0.table, storedLinks := r.1))
    ensures Extends(s.coupons, r.0.table) && Stored(r.0.rows, r.0.table) && |r.1| == |s.storedLinks|
    ensures Count(r.1, Unused) + |r.0.table.byId| == Count(s.storedLinks, Unused) + |s.coupons.byId|
    ensures !r.0.failed ==> |r.0.rows| == |drafts| && Count(r.1, Unused) == Count(s.storedLinks, Unused) - |drafts|
  {
    var b := CreateEach(s.coupons, drafts, now);
    var made := Made(s.coupons, drafts, now);
    var links := MarkEach(s.storedLinks, picks, made, now);
    CreateEachExtends(s.coupons, drafts, now);
    CreateEachStored(s.coupons, drafts, now);
    CreateEachComplete(s.coupons, drafts, now);
    MadeRows(s.coupons, drafts, now);
    MarkEachUsesUp(s.storedLinks, picks, made, now);
    MarkEachConforms(s.storedLinks, picks, made, now);
    if b.failed then (b, links)
    else
      MadeAll(s.coupons, drafts, now);
      CountFull(made, IsTrue);
      (b, links)
  }

  /** The loop state of the handler's fan-out after its first `k` items. */
  ghost predicate FannedOut(t: Table, pool: seq<StoredLink>, picks: seq<nat>, drafts: seq<CouponFields>, k: nat, now: Time,
                            b: Batch, made: seq<bool>, links: seq<StoredLink>)
    requires Valid(t) && k <= |picks| == |drafts|
    requires forall j | 0 <= j < |picks| :: picks[j] < |pool|
  {
    && b == CreateEach(t, drafts[..k], now)
    && made == Made(t, drafts[..k], now)
    && links == MarkEach(pool, picks[..k], made, now)
  }

  /**
   * One more item of the fan-out: after the first `k` items, one create
   * step on the k-th draft, its outcome, and the k-th pick marked used
   * exactly when that create stored its coupon give the state after the
   * first `k + 1` items.
   */
  lemma FanOutNext(t: Table, pool: seq<StoredLink>, picks: seq<nat>, drafts: seq<CouponFields>, k: nat, now: Time,
                   b: Batch, made: seq<bool>, links: seq<StoredLink>)
    requires Valid(t) && k < |picks| == |drafts|
    requires forall j | 0 <= j < |picks| :: picks[j] < |pool|
    requires FannedOut(t, pool, picks, drafts, k, now, b, made, links)
    ensures Valid(b.table) && |links| == |pool|
    ensures var stored := Create(b.table, drafts[k], now).1.Some?;
      FannedOut(t, pool, picks, drafts, k + 1, now, CreateStep(b, drafts[k], now), made + [stored],
                if stored then links[picks[k] := MarkUsed(links[picks[k]], now)] else links)
  {
    CreateEachNext(t, drafts, k, now);
    MadeNext(t, drafts, k, now);
    MarkEachNext(pool, picks, made, Create(b.table, drafts[k], now).1.Some?, now);
  }

  /** One item of the fan-out: create the k-th coupon, and mark the k-th pick used when it was stored. */
  method CreateForPick(ghost t: Table, pool: seq<StoredLink>, picks: seq<nat>, drafts: seq<CouponFields>, k: nat, now: Time,
                       b: Batch, ghost made: seq<bool>, links: seq<StoredLink>)
    returns (b': Batch, ghost made': seq<bool>, links': seq<StoredLink>)
    requires Valid(t) && k < |picks| == |drafts|
    requires forall j | 0 <= j < |picks| :: picks[j] < |pool|
    requires FannedOut(t, pool, picks, drafts, k, now, b, made, links)
    ensures FannedOut(t, pool, picks, drafts, k + 1, now, b', made', links')
  {
    FanOutNext(t, pool, picks, drafts, k, now, b, made, links);
    CreateStepCreates(b, drafts[k], now);
    var next := Create(b.table, drafts[k], now);
    if next.1.None? {
      b', made', links' := b.(failed := true), made + [false], links;
    } else {
      var created := (next.1.value, next.0.byId[next.1.value]);
      b', made', links' := Batch(next.0, b.rows + [created], b.failed), made + [true], links[picks[k] := MarkUsed(links[picks[k]], now)];
    }
  }

  /**
   * The `Promise.all` of the handler run one picked link after another:
   * the k-th create is given `drafts[k]`, its link is marked used when the
   * coupon was stored, and a refused create does not stop the others. It
   * computes exactly the fan-out's batch and pool.
   */
  method CreatePerPick(t: Table, pool: seq<StoredLink>, picks: seq<nat>, drafts: seq<CouponFields>, now: Time)
    returns (b: Batch, links: seq<StoredLink>)
    requires Valid(t) && |drafts| == |picks|
    requires forall j | 0 <= j < |picks| :: picks[j] < |pool|
    ensures b == CreateEach(t, drafts, now)
    ensures links == MarkEach(pool, picks, Made(t, drafts, now), now)
  {
    ghost var made: seq<bool> := [];
    b, links := Batch(t, [], false), pool;
    var k := 0;
    while k < |picks|
      invariant 0 <= k <= |picks|
      invariant FannedOut(t, pool, picks, drafts, k, now, b, made, links)
    {
      b, made, links := CreateForPick(t, pool, picks, drafts, k, now, b, made, links);
      k := k + 1;
    }
    assert drafts[..k] == drafts && picks[..k] == picks;
  }

  /**
   * The handler's work once the request is accepted: pick the first `n`
   * unused links, or refuse with a shortfall when there are fewer, and
   * fan the coupons out over the picks.
   */
  function GenerateAccepted(s: State, creator: string, n: int, days: int, codes: nat -> NanoCode, now: Time): (o: Outcome)
    requires Consistent(s) && n >= 1 && days >= 1
    ensures Consistent(o.state)
    ensures o.state.linkRecords == s.linkRecords && Extends(s.coupons, o.state.coupons)
    ensures |o.state.storedLinks| == |s.storedLinks|
    ensures Count(o.state.storedLinks, Unused) + |o.state.coupons.byId| == Count(s.storedLinks, Unused) + |s.coupons.byId|
    ensures Count(s.storedLinks, Unused) < n
      ==> o == Outcome(s, Response(400, [], Shortfall("Not enough unused links available", Count(s.storedLinks, Unused), n)))
    ensures o.response.status == 201 ==> o.response.body.Generated? && o.response.body == Generated("Coupons generated successfully", n, o.response.body.rows)
    ensures o.response.status == 201 ==> |o.response.body.rows| == n && Stored(o.response.body.rows, o.state.coupons)
    ensures o.response.status == 201 ==> |o.state.coupons.byId| == |s.coupons.byId| + n
    ensures o.response.status == 201 ==> Count(o.state.storedLinks, Unused) == Count(s.storedLinks, Unused) - n
  {
    var pool := s.storedLinks;
    var picks := FirstUnused(pool, n);
    if |picks| < n then
      Outcome(s, Response(400, [], Shortfall("Not enough unused links available", |picks|, n)))
    else
      var drafts := GenerateDrafts(pool, picks, creator, ExpiryAfterDays(now, days), codes);
      var (b, links) := FanOut(s, picks, drafts, now);
      var after := s.(coupons := b.table, storedLinks := links);
      if b.failed then
        Outcome(after, Fail(500, "Failed to generate coupons"))
      else
        Outcome(after, Response(201, [], Generated("Coupons generated successfully", |b.rows|, b.rows)))
  }

  /**
   * The handler's work once the request is accepted, step by step: load
   * the first `n` unused links, refuse when there are fewer, otherwise run
   * the creates one picked link after another.
   */
  method RunAccepted(s: State, creator: string, n: int, days: int, codes: nat -> NanoCode, now: Time) returns (o: Outcome)
    requires Consistent(s) && n >= 1 && days >= 1
    ensures o == GenerateAccepted(s, creator, n, days, codes, now)
  {
    var pool := s.storedLinks;
    var picks := FirstUnused(pool, n);
    if |picks| < n {
      return Outcome(s, Response(400, [], Shortfall("Not enough unused links available", |picks|, n)));
    }
    var drafts := GenerateDrafts(pool, picks, creator, ExpiryAfterDays(now, days), codes);
    var b, links := CreatePerPick(s.coupons, pool, picks, drafts, now);
    var after := s.(coupons := b.table, storedLinks := links);
    if b.failed {
      o := Outcome(after, Fail(500, "Failed to generate coupons"));
    } else {
      o := Outcome(after, Response(201, [], Generated("Coupons generated successfully", |b.rows|, b.rows)));
    }
  }

  /**
   * The handler. Refusals, including a pool with fewer than `count` unused
   * links, change nothing. Otherwise every picked link is attempted; each
   * stored coupon consumes exactly one unused link, whether or not the
   * response is the 500 of a failed create, and a 201 returns `count`
   * coupons and leaves `count` fewer unused links.
   */
  function Generate(s: State, session: Option<Session>, verb: Verb, count: Option<int>, days: Option<int>,
                    codes: nat -> NanoCode, now: Time): (o: Outcome)
    requires Consistent(s)
    ensures Consistent(o.state)
    ensures o.state.linkRecords == s.linkRecords && Extends(s.coupons, o.state.coupons)
    ensures |o.state.storedLinks| == |s.storedLinks|
    ensures Count(o.state.storedLinks, Unused) + |o.state.coupons.byId| == Count(s.storedLinks, Unused) + |s.coupons.byId|
    ensures verb != Post ==> o == Outcome(s, NotAllowedText(verb, [Post]))
    ensures verb == Post && session.None? ==> o == Outcome(s, Unauthorized)
    ensures verb == Post && session.Some? && !AtLeastOne(count) ==> o == Outcome(s, Fail(400, "Count must be at least 1"))
    ensures verb == Post && session.Some? && AtLeastOne(count) && !ValidDays(days)
      ==> o == Outcome(s, Fail(400, "Days until expiry must be at least 1"))
    ensures verb == Post && session.Some? && AtLeastOne(count) && ValidDays(days) && Count(s.storedLinks, Unused) < count.value
      ==> o == Outcome(s, Response(400, [], Shortfall("Not enough unused links available", Count(s.storedLinks, Unused), count.value)))
    ensures o.response.status == 201 ==> verb == Post && session.Some? && AtLeastOne(count) && ValidDays(days)
    ensures o.response.status == 201 ==> o.response.body.Generated?
    ensures o.response.status == 201 ==> o.response.body == Generated("Coupons generated successfully", count.value, o.response.body.rows)
    ensures o.response.status == 201 ==> |o.response.body.rows| == count.value && Stored(o.response.body.rows, o.state.coupons)
    ensures o.response.status == 201 ==> |o.state.coupons.byId| == |s.coupons.byId| + count.value
    ensures o.response.status == 201 ==> Count(o.state.storedLinks, Unused) == Count(s.storedLinks, Unused) - count.value
  {
    if verb != Post then
      Outcome(s, NotAllowedText(verb, [Post]))
    else if session.None? then
      Outcome(s, Unauthorized)
    else if !AtLeastOne(count) then
      Outcome(s, Fail(400, "Count must be at least 1"))
    else if !ValidDays(days) then
      Outcome(s, Fail(400, "Days until expiry must be at least 1"))
    else
      GenerateAccepted(s, CreatorOf(session.value), count.value, days.value, codes, now)
  }

  /**
   * A 201 made the k-th coupon from the k-th picked link: code `codes(k)`,
   * that link as `claimLink`, name 'generated', the session's creator and
   * the shared end-of-day expiry. The picked links are distinct and were
   * unused.
   */
  lemma GenerateRows(s: State, session: Option<Session>, count: Option<int>, days: Option<int>, codes: nat -> NanoCode, now: Time)
    requires Consistent(s)
    requires Generate(s, session, Post, count, days, codes, now).response.status == 201
    ensures count.Some? && days.Some? && session.Some?
    ensures |Generate(s, session, Post, count, days, codes, now).response.body.rows| == |FirstUnused(s.storedLinks, count.value)|
    ensures forall a, b | 0 <= a < b < |FirstUnused(s.storedLinks, count.value)| ::
      FirstUnused(s.storedLinks, count.value)[a] != FirstUnused(s.storedLinks, count.value)[b]
    ensures forall k | 0 <= k < |Generate(s, session, Post, count, days, codes, now).response.body.rows| ::
      && FirstUnused(s.storedLinks, count.value)[k] < |s.storedLinks|
      && Unused(s.storedLinks[FirstUnused(s.storedLinks, count.value)[k]])
      && Generate(s, session, Post, count, days, codes, now).response.body.rows[k].1
         == Coupon(codes(k), s.storedLinks[FirstUnused(s.storedLinks, count.value)[k]].link, "generated", false, None, None,
                   now, ExpiryAfterDays(now, days.value), Some(CreatorOf(session.value)))
  {
    assert Generate(s, session, Post, count, days, codes, now)
      == GenerateAccepted(s, CreatorOf(session.value), count.value, days.value, codes, now);
    var picks := FirstUnused(s.storedLinks, count.value);
    var drafts := GenerateDrafts(s.storedLinks, picks, CreatorOf(session.value), ExpiryAfterDays(now, days.value), codes);
    CreateEachComplete(s.coupons, drafts, now);
    var rows := CreateEach(s.coupons, drafts, now).rows;
    assert Generate(s, session, Post, count, days, codes, now).response.body.rows == rows;
    forall k | 0 <= k < |rows|
      ensures rows[k].1 == Coupon(codes(k), s.storedLinks[picks[k]].link, "generated", false, None, None,
                                  now, ExpiryAfterDays(now, days.value), Some(CreatorOf(session.value)))
    {
      assert NewCoupon(drafts[k], now) == Some(rows[k].1);
    }
  }

  /** The first `n` codes are not yet stored and pairwise distinct. */
  ghost predicate FreshCodes(t: Table, codes: nat -> NanoCode, n: int) {
    && (forall k, id | 0 <= k < n && id in t.byId :: codes(k) != t.byId[id].code)
    && (forall a, b | 0 <= a < b < n :: codes(a) != codes(b))
  }

  /**
   * When to expect a 201: an accepted request with at least `count`
   * unused links and fresh, distinct codes stores every coupon.
   */
  lemma GenerateSucceeds(s: State, session: Session, n: int, days: int, codes: nat -> NanoCode, now: Time)
    requires Consistent(s) && n >= 1 && days >= 1 && Count(s.storedLinks, Unused) >= n
    requires FreshCodes(s.coupons, codes, n)
    ensures Generate(s, Some(session), Post, Some(n), Some(days), codes, now).response.status == 201
  {
    var picks := FirstUnused(s.storedLinks, n);
    var drafts := GenerateDrafts(s.storedLinks, picks, CreatorOf(session), ExpiryAfterDays(now, days), codes);
    forall i | 0 <= i < |drafts|
      ensures NewCoupon(drafts[i], now).Some?
    {
      assert LinkConforms(s.storedLinks[picks[i]]);
    }
    CreateEachSucceeds(s.coupons, drafts, now);
  }

  /**
   * The other direction: an accepted request that ends in the 500 had
   * enough unused links, and one of its codes was already stored or
   * repeated an earlier one.
   */
  lemma GenerateFailsOnCollision(s: State, session: Session, n: int, days: int, codes: nat -> NanoCode, now: Time)
    requires Consistent(s)
    requires Generate(s, Some(session), Post, Some(n), Some(days), codes, now).response.status == 500
    ensures n >= 1 && days >= 1 && Count(s.storedLinks, Unused) >= n
    ensures !FreshCodes(s.coupons, codes, n)
  {
    if FreshCodes(s.coupons, codes, n) {
      GenerateSucceeds(s, session, n, days, codes, now);
    }
  }

  /**
   * A fan-out without a failure marked each picked link used at `now`,
   * keeping its other fields, and left every other link as it was.
   */
  lemma FanOutMarks(s: State, picks: seq<nat>, drafts: seq<CouponFields>, now: Time)
    requires Consistent(s) && |drafts| == |picks|
    requires forall k | 0 <= k < |picks| :: picks[k] < |s.storedLinks| && Unused(s.storedLinks[picks[k]])
    requires forall a, b | 0 <= a < b < |picks| :: picks[a] != picks[b]
    requires !FanOut(s, picks, drafts, now).0.failed
    ensures forall k | 0 <= k < |picks| ::
      FanOut(s, picks, drafts, now).1[picks[k]] == MarkUsed(s.storedLinks[picks[k]], now)
    ensures forall j | 0 <= j < |s.storedLinks| && j !in picks ::
      FanOut(s, picks, drafts, now).1[j] == s.storedLinks[j]
  {
    var made := Made(s.coupons, drafts, now);
    MadeAll(s.coupons, drafts, now);
    forall k | 0 <= k < |picks|
      ensures MarkEach(s.storedLinks, picks, made, now)[picks[k]] == MarkUsed(s.storedLinks[picks[k]], now)
    {
      MarkEachMarks(s.storedLinks, picks, made, now, k);
    }
    forall j | 0 <= j < |s.storedLinks| && j !in picks
      ensures MarkEach(s.storedLinks, picks, made, now)[j] == s.storedLinks[j]
    {
      MarkEachKeepsOthers(s.storedLinks, picks, made, now, j);
    }
  }

  /**
   * A 201 marked each picked link used at `now`, keeping its other
   * fields, and left every other link as it was.
   */
  lemma GenerateMarks(s: State, session: Option<Session>, count: Option<int>, days: Option<int>, codes: nat -> NanoCode, now: Time)
    requires Consistent(s)
    requires Generate(s, session, Post, count, days, codes, now).response.status == 201
    ensures count.Some? && days.Some? && session.Some?
    ensures forall k | 0 <= k < |FirstUnused(s.storedLinks, count.value)| ::
      Generate(s, session, Post, count, days, codes, now).state.storedLinks[FirstUnused(s.storedLinks, count.value)[k]]
        == MarkUsed(s.storedLinks[FirstUnused(s.storedLinks, count.value)[k]], now)
    ensures forall j | 0 <= j < |s.storedLinks| && j !in FirstUnused(s.storedLinks, count.value) ::
      Generate(s, session, Post, count, days, codes, now).state.storedLinks[j] == s.storedLinks[j]
  {
    assert Generate(s, session, Post, count, days, codes, now)
      == GenerateAccepted(s, CreatorOf(session.value), count.value, days.value, codes, now);
    var picks := FirstUnused(s.storedLinks, count.value);
    var drafts := GenerateDrafts(s.storedLinks, picks, CreatorOf(session.value), ExpiryAfterDays(now, days.value), codes);
    FanOutMarks(s, picks, drafts, now);
  }
}

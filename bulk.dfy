/**
 * `POST /api/coupons/bulk`: one coupon per link of the request, all with
 * the same name, creator and end-of-day expiry.
 */
module BulkApi {
  import opened Wrappers
  import opened Clock
  import opened Codes
  import opened Models
  import opened CouponTable
  import opened Http
  import opened Db
  import opened Batches
  import opened CouponsApi

  /** The `Coupon.create` argument for each link (`source` is not a schema path, so Mongoose drops it). */
  function BulkDrafts(session: Session, links: seq<string>, name: Option<string>, days: int, codes: nat -> NanoCode, now: Time): (drafts: seq<CouponFields>)
    ensures |drafts| == |links|
    ensures forall i | 0 <= i < |links| :: drafts[i] == Draft(session, Some(links[i]), name, days, codes(i), now)
  {
    seq(|links|, i requires 0 <= i < |links| => Draft(session, Some(links[i]), name, days, codes(i), now))
  }

  /**
   * The handler. Refusals before the fan-out change nothing. The fan-out
   * attempts every link; the coupons it stores stay stored even when
   * another create fails and the response is 500. A 201 lists exactly one
   * new coupon per link, in the order of the links.
   */
  function Bulk(s: State, session: Option<Session>, verb: Verb, links: Option<seq<string>>, name: Option<string>,
                days: Option<int>, codes: nat -> NanoCode, now: Time): (o: Outcome)
    requires Consistent(s)
    ensures Consistent(o.state)
    ensures o.state.storedLinks == s.storedLinks && o.state.linkRecords == s.linkRecords
    ensures Extends(s.coupons, o.state.coupons)
    ensures verb != Post ==> o == Outcome(s, NotAllowedJson)
    ensures verb == Post && session.None? ==> o == Outcome(s, Unauthorized)
    ensures verb == Post && session.Some? && (links.None? || links.value == []) ==> o == Outcome(s, Fail(400, "Links are required"))
    ensures verb == Post && session.Some? && links.Some? && links.value != [] && !ValidDays(days)
      ==> o == Outcome(s, Fail(400, "Days until expiry must be at least 1"))
    ensures o.response.status == 201 ==> o.response.body.CouponList?
    ensures o.response.body.CouponList? ==>
      && verb == Post && session.Some? && links.Some? && ValidDays(days)
      && |o.response.body.rows| == |links.value| && Stored(o.response.body.rows, o.state.coupons)
      && |o.state.coupons.byId| == |s.coupons.byId| + |links.value|
  {
    if verb != Post then
      Outcome(s, NotAllowedJson)
    else if session.None? then
      Outcome(s, Unauthorized)
    else if links.None? || links.value == [] then
      Outcome(s, Fail(400, "Links are required"))
    else if !ValidDays(days) then
      Outcome(s, Fail(400, "Days until expiry must be at least 1"))
    else
      var drafts := BulkDrafts(session.value, links.value, name, days.value, codes, now);
      var b := CreateEach(s.coupons, drafts, now);
      CreateEachExtends(s.coupons, drafts, now);
      CreateEachStored(s.coupons, drafts, now);
      CreateEachComplete(s.coupons, drafts, now);
      if b.failed then
        Outcome(s.(coupons := b.table), Fail(500, "Failed to create bulk coupons"))
      else
        Outcome(s.(coupons := b.table), Response(201, [], CouponList(b.rows)))
  }

  /**
   * A 201 lists, for the i-th link, a new unclaimed coupon with code
   * `codes(i)`, that link, the name or 'general', the session's creator,
   * creation now, and expiry at the end of the day `daysUntilExpiry` days
   * from today.
   */
  lemma BulkRows(s: State, session: Option<Session>, verb: Verb, links: Option<seq<string>>, name: Option<string>,
                 days: Option<int>, codes: nat -> NanoCode, now: Time)
    requires Consistent(s)
    requires Bulk(s, session, verb, links, name, days, codes, now).response.status == 201
    ensures var o := Bulk(s, session, verb, links, name, days, codes, now);
      && session.Some? && links.Some? && days.Some?
      && forall i | 0 <= i < |o.response.body.rows| ::
           && o.response.body.rows[i].0 !in s.coupons.byId
           && o.response.body.rows[i].1.code == codes(i) && o.response.body.rows[i].1.claimLink == links.value[i]
           && o.response.body.rows[i].1.name == OrElse(name, "general")
           && o.response.body.rows[i].1.createdBy == Some(CreatorOf(session.value))
           && Unclaimed(o.response.body.rows[i].1) && o.response.body.rows[i].1.createdAt == now
           && Day(o.response.body.rows[i].1.expiresAt) == Day(now) + days.value
           && Day(o.response.body.rows[i].1.expiresAt + 1) == Day(now) + days.value + 1
  {
    var drafts := BulkDrafts(session.value, links.value, name, days.value, codes, now);
    CreateEachComplete(s.coupons, drafts, now);
    CreateEachFresh(s.coupons, drafts, now);
    var rows := CreateEach(s.coupons, drafts, now).rows;
    assert Bulk(s, session, verb, links, name, days, codes, now).response.body.rows == rows;
    forall i | 0 <= i < |rows|
      ensures rows[i].1.expiresAt == ExpiryAfterDays(now, days.value)
    {
      assert NewCoupon(drafts[i], now) == Some(rows[i].1);
    }
  }

  /**
   * The request succeeds when every link is non-empty and the generated
   * codes are new to the collection and distinct from each other; the
   * 500 comes only from a refused create.
   */
  lemma BulkSucceeds(s: State, session: Option<Session>, links: seq<string>, name: Option<string>,
                     days: int, codes: nat -> NanoCode, now: Time)
    requires Consistent(s) && session.Some? && links != [] && days >= 1
    requires forall i | 0 <= i < |links| :: links[i] != ""
    requires forall i, id | 0 <= i < |links| && id in s.coupons.byId :: codes(i) != s.coupons.byId[id].code
    requires forall i, j | 0 <= i < j < |links| :: codes(i) != codes(j)
    ensures Bulk(s, session, Post, Some(links), name, Some(days), codes, now).response.status == 201
  {
    var drafts := BulkDrafts(session.value, links, name, days, codes, now);
    CreateEachSucceeds(s.coupons, drafts, now);
  }
}

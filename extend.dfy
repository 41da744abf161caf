/**
 * `POST /api/coupons/extend`: resets a coupon's expiry to the end of the
 * day `daysToAdd` days after today.
 */
module ExtendApi {
  import opened Wrappers
  import opened Clock
  import opened Models
  import opened CouponTable
  import opened Http
  import opened Db

  /**
   * The handler. Every refusal leaves the database as it was. A 200
   * rewrites exactly one document, only its `expiresAt`, whatever its
   * claim state, and returns the rewritten document.
   */
  function Extend(s: State, session: Option<Session>, verb: Verb, couponId: IdParam, daysToAdd: Option<int>, now: Time): (o: Outcome)
    requires Consistent(s)
    ensures Consistent(o.state)
    ensures o.response.status != 200 ==> o.state == s
    ensures verb != Post ==> o.response == NotAllowedJson
    ensures verb == Post && session.None? ==> o.response == Unauthorized
    ensures verb == Post && session.Some? && (couponId.NoId? || daysToAdd.None? || daysToAdd == Some(0))
      ==> o.response == Fail(400, "Coupon ID and days to add are required")
    ensures verb == Post && session.Some? && couponId.BadId? && daysToAdd.Some? && daysToAdd != Some(0)
      ==> o.response == Fail(500, "Failed to extend coupon expiration")
    ensures verb == Post && session.Some? && couponId.ObjId? && daysToAdd.Some? && daysToAdd != Some(0)
      && couponId.id !in s.coupons.byId
      ==> o.response == Fail(404, "Coupon not found")
    ensures verb == Post && session.Some? && couponId.ObjId? && daysToAdd.Some? && daysToAdd != Some(0)
      && couponId.id in s.coupons.byId && !Conforms(s.coupons.byId[couponId.id])
      ==> o.response == Fail(500, "Failed to extend coupon expiration")
    ensures o.response.status == 200 <==>
      verb == Post && session.Some? && couponId.ObjId? && daysToAdd.Some? && daysToAdd != Some(0)
      && couponId.id in s.coupons.byId && Conforms(s.coupons.byId[couponId.id])
    ensures o.response.status == 200 ==> (
      var id := couponId.id;
      var c := s.coupons.byId[id];
      && id in o.state.coupons.byId
      && o.response == Response(200, [], Extended("Coupon expiration extended successfully", (id, o.state.coupons.byId[id])))
      && o.state.coupons.byId == s.coupons.byId[id := o.state.coupons.byId[id]]
      && o.state.storedLinks == s.storedLinks && o.state.linkRecords == s.linkRecords
      && o.state.coupons.byId[id].(expiresAt := c.expiresAt) == c
      && Day(o.state.coupons.byId[id].expiresAt) == Day(now) + daysToAdd.value
      && Day(o.state.coupons.byId[id].expiresAt + 1) == Day(now) + daysToAdd.value + 1)
  {
    if verb != Post then
      Outcome(s, NotAllowedJson)
    else if session.None? then
      Outcome(s, Unauthorized)
    else if couponId.NoId? || daysToAdd.None? || daysToAdd.value == 0 then
      Outcome(s, Fail(400, "Coupon ID and days to add are required"))
    else if couponId.BadId? then
      Outcome(s, Fail(500, "Failed to extend coupon expiration"))
    else if couponId.id !in s.coupons.byId then
      Outcome(s, Fail(404, "Coupon not found"))
    else
      var c := s.coupons.byId[couponId.id].(expiresAt := ExpiryAfterDays(now, daysToAdd.value));
      if !Conforms(c) then
        Outcome(s, Fail(500, "Failed to extend coupon expiration"))
      else
        Outcome(s.(coupons := Update(s.coupons, couponId.id, c)),
                Response(200, [], Extended("Coupon expiration extended successfully", (couponId.id, c))))
  }

  /**
   * The new expiry depends only on `now` and `daysToAdd`: two coupons that
   * differ in their old expiry end up with the same one.
   */
  lemma ExtendIgnoresOldExpiry(s: State, session: Option<Session>, id: Id, days: int, now: Time, old_expiry: Time)
    requires Consistent(s) && id in s.coupons.byId
    requires Extend(s, session, Post, ObjId(id), Some(days), now).response.status == 200
    ensures var s' := s.(coupons := Update(s.coupons, id, s.coupons.byId[id].(expiresAt := old_expiry)));
      Extend(s', session, Post, ObjId(id), Some(days), now).response
        == Extend(s, session, Post, ObjId(id), Some(days), now).response
  {
  }

  /**
   * "Extending" by one day a coupon that expires later than tomorrow
   * brings its expiry forward: the handler resets, it does not add.
   */
  lemma ExtendCanShorten(s: State, session: Option<Session>, id: Id, now: Time)
    requires Consistent(s) && id in s.coupons.byId
    requires Extend(s, session, Post, ObjId(id), Some(1), now).response.status == 200
    requires Day(s.coupons.byId[id].expiresAt) > Day(now) + 1
    ensures Extend(s, session, Post, ObjId(id), Some(1), now).state.coupons.byId[id].expiresAt < s.coupons.byId[id].expiresAt
  {
    var e := Extend(s, session, Post, ObjId(id), Some(1), now).state.coupons.byId[id].expiresAt;
    assert Day(e) < Day(s.coupons.byId[id].expiresAt);
  }

  /** A claimed coupon is extended too, and stays claimed with its claim fields. */
  lemma ExtendKeepsClaim(s: State, session: Option<Session>, id: Id, days: int, now: Time)
    requires Consistent(s) && id in s.coupons.byId
    requires Extend(s, session, Post, ObjId(id), Some(days), now).response.status == 200
    ensures var c := Extend(s, session, Post, ObjId(id), Some(days), now).state.coupons.byId[id];
      && c.isClaimed == s.coupons.byId[id].isClaimed
      && c.claimedAt == s.coupons.byId[id].claimedAt && c.claimedBy == s.coupons.byId[id].claimedBy
  {
  }
}

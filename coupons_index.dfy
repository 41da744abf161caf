/**
 * `/api/coupons`: with a session, GET lists every coupon newest first and
 * POST creates one coupon that expires at the end of the day
 * `daysUntilExpiry` days from today.
 */
module CouponsApi {
  import opened Wrappers
  import opened Clock
  import opened Codes
  import opened Models
  import opened CouponTable
  import opened Http
  import opened Db
  import opened Listing

  /** `!days || days < 1` is false: a number of days of at least one. */
  predicate ValidDays(days: Option<int>) {
    days.Some? && days.value >= 1
  }

  /** The object the POST hands to `Coupon.create`. */
  function Draft(session: Session, claimLink: Option<string>, name: Option<string>, days: int, code: NanoCode, now: Time): CouponFields {
    CouponFields(Some(code), claimLink, Some(OrElse(name, "general")), Some(ExpiryAfterDays(now, days)), Some(CreatorOf(session)))
  }

  /**
   * The handler. The session is checked before the method; GET and every
   * refusal leave the database as it was; a 201 stores exactly one new,
   * unclaimed coupon built from the request.
   */
  function Coupons(s: State, session: Option<Session>, verb: Verb, claimLink: Option<string>, name: Option<string>,
                   days: Option<int>, code: NanoCode, now: Time): (o: Outcome)
    requires Consistent(s)
    ensures Consistent(o.state)
    ensures o.response.status != 201 ==> o.state == s
    ensures session.None? ==> o.response == Unauthorized
    ensures session.Some? && verb == Get ==> o.response == Response(200, [], CouponList(NewestFirst(s.coupons)))
    ensures session.Some? && verb != Get && verb != Post ==> o.response.status == 405 && o.response.allow == [Get, Post]
    ensures session.Some? && verb == Post && !Given(claimLink) ==> o.response == Fail(400, "Claim link is required")
    ensures session.Some? && verb == Post && Given(claimLink) && !ValidDays(days)
      ==> o.response == Fail(400, "Days until expiry must be at least 1")
    ensures o.response.status == 201 <==>
      session.Some? && verb == Post && Given(claimLink) && ValidDays(days)
      && forall id | id in s.coupons.byId :: s.coupons.byId[id].code != code
    ensures o.response.status == 201 ==> o.response.body.OneCoupon?
    ensures o.response.body.OneCoupon? ==> (
      var (id, c) := o.response.body.row;
      && id !in s.coupons.byId && o.state.coupons.byId == s.coupons.byId[id := c]
      && o.state.storedLinks == s.storedLinks && o.state.linkRecords == s.linkRecords
      && c.code == code && Some(c.claimLink) == claimLink && c.name == OrElse(name, "general")
      && session.Some? && c.createdBy == Some(CreatorOf(session.value)) && Unclaimed(c) && c.createdAt == now
      && days.Some? && Day(c.expiresAt) == Day(now) + days.value && Day(c.expiresAt + 1) == Day(now) + days.value + 1)
  {
    if session.None? then
      Outcome(s, Unauthorized)
    else if verb == Get then
      Outcome(s, Response(200, [], CouponList(NewestFirst(s.coupons))))
    else if verb == Post then
      if !Given(claimLink) then
        Outcome(s, Fail(400, "Claim link is required"))
      else if !ValidDays(days) then
        Outcome(s, Fail(400, "Days until expiry must be at least 1"))
      else
        var f := Draft(session.value, claimLink, name, days.value, code, now);
        var (t, made) := Create(s.coupons, f, now);
        match made
        case None => Outcome(s, Fail(500, "Internal server error"))
        case Some(id) => Outcome(s.(coupons := t), Response(201, [], OneCoupon((id, t.byId[id]))))
    else
      Outcome(s, NotAllowedText(verb, [Get, Post]))
  }
}

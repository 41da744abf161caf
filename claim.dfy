/** `POST /api/coupons/claim`: claim an unclaimed, unexpired coupon by its code. */
module ClaimApi {
  import opened Wrappers
  import opened Clock
  import opened Models
  import opened CouponTable
  import opened Http
  import opened Db

  /**
   * The claim handler. Its checks run in the order method, code given,
   * coupon found, not yet claimed, not expired (`expiresAt < now` is
   * expired, so a coupon is still claimable at its last millisecond),
   * then `save` re-validates the document. Every refusal leaves the
   * database as it was; success claims that one coupon and nothing else.
   */
  function Claim(s: State, verb: Verb, code: Option<string>, who: Requester, now: Time): (o: Outcome)
    requires Consistent(s)
    ensures Consistent(o.state)
    ensures o.response.status != 200 ==> o.state == s
    ensures verb != Post ==> o.response.status == 405 && o.response.allow == [Post]
    ensures verb == Post && !Given(code) ==> o.response == Fail(400, "Coupon code is required")
    ensures verb == Post && Given(code) && (forall id | id in s.coupons.byId :: s.coupons.byId[id].code != code.value)
      ==> o.response == Fail(404, "Coupon not found")
    ensures verb == Post && Given(code) ==>
      forall id | id in s.coupons.byId && s.coupons.byId[id].code == code.value ::
        var c := s.coupons.byId[id];
        && (c.isClaimed ==> o.response == Fail(400, "Coupon has already been claimed"))
        && (!c.isClaimed && c.expiresAt < now ==> o.response == Fail(400, "Coupon has expired"))
        && (!c.isClaimed && now <= c.expiresAt && !Conforms(c) ==> o.response == Fail(500, "Failed to claim coupon"))
        && (!c.isClaimed && now <= c.expiresAt && Conforms(c) ==>
              o.response == Response(200, [], Claimed("Coupon claimed successfully", c.claimLink))
              && o.state == s.(coupons := Update(s.coupons, id, MarkClaimed(c, who, now))))
  {
    if verb != Post then
      Outcome(s, NotAllowedText(verb, [Post]))
    else if !Given(code) then
      Outcome(s, Fail(400, "Coupon code is required"))
    else
      match Lookup(s.coupons, code.value)
      case None => Outcome(s, Fail(404, "Coupon not found"))
      case Some(id) =>
        var c := s.coupons.byId[id];
        if c.isClaimed then
          Outcome(s, Fail(400, "Coupon has already been claimed"))
        else if c.expiresAt < now then
          Outcome(s, Fail(400, "Coupon has expired"))
        else if !Conforms(c) then
          Outcome(s, Fail(500, "Failed to claim coupon"))
        else
          Outcome(s.(coupons := Update(s.coupons, id, MarkClaimed(c, who, now))),
                  Response(200, [], Claimed("Coupon claimed successfully", c.claimLink)))
  }

  /** After a successful claim, claiming the same code again is refused and changes nothing. */
  lemma ClaimOnce(s: State, code: string, who: Requester, now: Time, who2: Requester, later: Time)
    requires Consistent(s)
    requires Claim(s, Post, Some(code), who, now).response.status == 200
    ensures var s1 := Claim(s, Post, Some(code), who, now).state;
      Claim(s1, Post, Some(code), who2, later) == Outcome(s1, Fail(400, "Coupon has already been claimed"))
  {
    var id := Lookup(s.coupons, code).value;
    var s1 := Claim(s, Post, Some(code), who, now).state;
    assert s1.coupons.byId[id].code == code && s1.coupons.byId[id].isClaimed;
  }

  /** The expiry boundary: a coupon expiring exactly now is still claimed, one millisecond later it is not. */
  lemma ExpiryBoundary(s: State, id: Id, who: Requester)
    requires Consistent(s) && id in s.coupons.byId
    requires var c := s.coupons.byId[id]; c.code != "" && !c.isClaimed && Conforms(c)
    ensures var c := s.coupons.byId[id];
      && Claim(s, Post, Some(c.code), who, c.expiresAt).response.status == 200
      && Claim(s, Post, Some(c.code), who, c.expiresAt + 1).response == Fail(400, "Coupon has expired")
  {
  }
}

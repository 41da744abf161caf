/** `POST /api/coupons/redeem`: the claim transition without an expiry check. */
module RedeemApi {
  import opened Wrappers
  import opened Clock
  import opened Models
  import opened CouponTable
  import opened Http
  import opened Db

  /**
   * The redeem handler: method, code given, coupon found, not yet claimed,
   * then `save` re-validates. Expiry is never consulted. Refusals leave the
   * database as it was; success claims that one coupon and nothing else.
   */
  function Redeem(s: State, verb: Verb, code: Option<string>, who: Requester, now: Time): (o: Outcome)
    requires Consistent(s)
    ensures Consistent(o.state)
    ensures o.response.status != 200 ==> o.state == s
    ensures verb != Post ==> o.response.status == 405 && o.response.allow == [Post]
    ensures verb == Post && !Given(code) ==> o.response == Fail(400, "Code is required")
    ensures verb == Post && Given(code) && (forall id | id in s.coupons.byId :: s.coupons.byId[id].code != code.value)
      ==> o.response == Fail(404, "Invalid code")
    ensures verb == Post && Given(code) ==>
      forall id | id in s.coupons.byId && s.coupons.byId[id].code == code.value ::
        var c := s.coupons.byId[id];
        && (c.isClaimed ==> o.response == Fail(400, "Code has already been claimed"))
        && (!c.isClaimed && !Conforms(c) ==> o.response == Fail(500, "Failed to redeem coupon"))
        && (!c.isClaimed && Conforms(c) ==>
              o.response == Response(200, [], LinkOnly(c.claimLink))
              && o.state == s.(coupons := Update(s.coupons, id, MarkClaimed(c, who, now))))
  {
    if verb != Post then
      Outcome(s, NotAllowedText(verb, [Post]))
    else if !Given(code) then
      Outcome(s, Fail(400, "Code is required"))
    else
      match Lookup(s.coupons, code.value)
      case None => Outcome(s, Fail(404, "Invalid code"))
      case Some(id) =>
        var c := s.coupons.byId[id];
        if c.isClaimed then
          Outcome(s, Fail(400, "Code has already been claimed"))
        else if !Conforms(c) then
          Outcome(s, Fail(500, "Failed to redeem coupon"))
        else
          Outcome(s.(coupons := Update(s.coupons, id, MarkClaimed(c, who, now))),
                  Response(200, [], LinkOnly(c.claimLink)))
  }
}

/**
 * Claim and redeem side by side: where they agree, where redeem's missing
 * expiry check lets an expired coupon through, and that in any sequence
 * of claim and redeem requests a code pays out its link at most once.
 */
module OneShot {
  import opened Wrappers
  import opened Clock
  import opened Models
  import opened CouponTable
  import opened Http
  import opened Db
  import ClaimApi
  import RedeemApi

  /** On a coupon that has not expired, claim and redeem make the same change. */
  lemma ClaimRedeemAgree(s: State, id: Id, who: Requester, now: Time)
    requires Consistent(s) && id in s.coupons.byId && s.coupons.byId[id].code != ""
    requires now <= s.coupons.byId[id].expiresAt
    ensures var code := Some(s.coupons.byId[id].code);
      && ClaimApi.Claim(s, Post, code, who, now).state == RedeemApi.Redeem(s, Post, code, who, now).state
      && (ClaimApi.Claim(s, Post, code, who, now).response.status == 200
          <==> RedeemApi.Redeem(s, Post, code, who, now).response.status == 200)
  {
  }

  /** An unclaimed coupon past its expiry is refused by claim but redeemed by redeem. */
  lemma RedeemIgnoresExpiry(s: State, id: Id, who: Requester, now: Time)
    requires Consistent(s) && id in s.coupons.byId
    requires var c := s.coupons.byId[id]; c.code != "" && !c.isClaimed && Conforms(c) && c.expiresAt < now
    ensures var c := s.coupons.byId[id];
      && ClaimApi.Claim(s, Post, Some(c.code), who, now).response == Fail(400, "Coupon has expired")
      && RedeemApi.Redeem(s, Post, Some(c.code), who, now).response == Response(200, [], LinkOnly(c.claimLink))
  {
  }

  datatype Kind = ClaimRequest | RedeemRequest

  /** One request to either endpoint. */
  datatype Attempt = Attempt(kind: Kind, verb: Verb, code: Option<string>, who: Requester, now: Time)

  function Step(s: State, a: Attempt): (o: Outcome)
    requires Consistent(s)
    ensures Consistent(o.state)
  {
    match a.kind
    case ClaimRequest => ClaimApi.Claim(s, a.verb, a.code, a.who, a.now)
    case RedeemRequest => RedeemApi.Redeem(s, a.verb, a.code, a.who, a.now)
  }

  /** Some coupon with code `k` can still be claimed. */
  ghost predicate Open(s: State, k: string) {
    exists id | id in s.coupons.byId :: s.coupons.byId[id].code == k && !s.coupons.byId[id].isClaimed
  }

  /** How many of the requests, run one after another from `s`, paid out for code `k`. */
  function Payouts(s: State, attempts: seq<Attempt>, k: string): (n: nat)
    requires Consistent(s)
    ensures n <= |attempts|
    decreases |attempts|
  {
    if attempts == [] then 0
    else
      var o := Step(s, attempts[0]);
      (if attempts[0].code == Some(k) && o.response.status == 200 then 1 else 0)
      + Payouts(o.state, attempts[1..], k)
  }

  /** A step keeps every document and its code, and never un-claims one. */
  lemma StepMonotone(s: State, a: Attempt)
    requires Consistent(s)
    ensures var t := Step(s, a).state.coupons.byId;
      && t.Keys == s.coupons.byId.Keys
      && forall id | id in t :: t[id].code == s.coupons.byId[id].code
           && (s.coupons.byId[id].isClaimed ==> t[id].isClaimed)
  {
    var o := Step(s, a);
    if o.response.status == 200 {
      var code := a.code.value;
      assert exists id | id in s.coupons.byId :: s.coupons.byId[id].code == code;
      var id :| id in s.coupons.byId && s.coupons.byId[id].code == code;
      var c := s.coupons.byId[id];
      assert o.state.coupons == Update(s.coupons, id, MarkClaimed(c, a.who, a.now));
    }
  }

  /** A paid-out request for `k` found an open coupon with that code and closed it. */
  lemma {:induction false} StepCloses(s: State, a: Attempt, k: string)
    requires Consistent(s) && a.code == Some(k) && Step(s, a).response.status == 200
    ensures Open(s, k) && !Open(Step(s, a).state, k)
  {
    var t := Step(s, a).state.coupons;
    var id := Lookup(s.coupons, k).value;
    StepMonotone(s, a);
    assert t.byId[id].isClaimed;
    forall j | j in t.byId && t.byId[j].code == k
      ensures t.byId[j].isClaimed
    {
      if j != id {
        CodesUnique(s.coupons, j, id);
      }
    }
  }

  /** Once no coupon with code `k` is open, none becomes open again. */
  lemma {:induction false} StepKeepsClosed(s: State, a: Attempt, k: string)
    requires Consistent(s) && !Open(s, k)
    ensures !Open(Step(s, a).state, k)
  {
    StepMonotone(s, a);
  }

  lemma {:induction false} NoPayoutWhenClosed(s: State, attempts: seq<Attempt>, k: string)
    requires Consistent(s) && !Open(s, k)
    ensures Payouts(s, attempts, k) == 0
    decreases |attempts|
  {
    if attempts != [] {
      var o := Step(s, attempts[0]);
      if attempts[0].code == Some(k) && o.response.status == 200 {
        StepCloses(s, attempts[0], k);
      }
      StepKeepsClosed(s, attempts[0], k);
      NoPayoutWhenClosed(o.state, attempts[1..], k);
    }
  }

  /** Run sequentially, claim and redeem requests pay out a code's link at most once. */
  lemma {:induction false} AtMostOnce(s: State, attempts: seq<Attempt>, k: string)
    requires Consistent(s)
    ensures Payouts(s, attempts, k) <= 1
    decreases |attempts|
  {
    if attempts != [] {
      var o := Step(s, attempts[0]);
      if attempts[0].code == Some(k) && o.response.status == 200 {
        StepCloses(s, attempts[0], k);
        NoPayoutWhenClosed(o.state, attempts[1..], k);
      } else {
        AtMostOnce(o.state, attempts[1..], k);
      }
    }
  }
}

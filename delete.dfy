/**
 * `POST /api/coupons/delete`: removes one coupon by id through the raw
 * driver. The handler reads no session.
 */
module DeleteApi {
  import opened CouponTable
  import opened Http
  import opened Db

  /**
   * The handler. Only a 200 changes the database, and then it removes
   * exactly the document with that id; 200 and 404 tell whether that
   * document existed.
   */
  function Delete(s: State, verb: Verb, couponId: IdParam): (o: Outcome)
    requires Consistent(s)
    ensures Consistent(o.state)
    ensures o.response.status != 200 ==> o.state == s
    ensures verb != Post ==> o.response == NotAllowedJson
    ensures verb == Post && couponId.NoId? ==> o.response == Fail(400, "Coupon ID is required")
    ensures verb == Post && couponId.BadId? ==> o.response == Fail(500, "Internal server error")
    ensures verb == Post && couponId.ObjId? ==>
      (couponId.id in s.coupons.byId <==> o.response == Response(200, [], Deleted))
      && (couponId.id !in s.coupons.byId <==> o.response == Fail(404, "Coupon not found"))
    ensures o.response.status == 200 ==>
      && couponId.ObjId?
      && o.state.coupons.byId == s.coupons.byId - {couponId.id}
      && |o.state.coupons.byId| == |s.coupons.byId| - 1
      && o.state.storedLinks == s.storedLinks && o.state.linkRecords == s.linkRecords
  {
    if verb != Post then
      Outcome(s, NotAllowedJson)
    else if couponId.NoId? then
      Outcome(s, Fail(400, "Coupon ID is required"))
    else if couponId.BadId? then
      Outcome(s, Fail(500, "Internal server error"))
    else
      var (t, removed) := Remove(s.coupons, couponId.id);
      if removed then Outcome(s.(coupons := t), Response(200, [], Deleted))
      else Outcome(s, Fail(404, "Coupon not found"))
  }

  /** Deleting the same id twice: the second request finds nothing and changes nothing. */
  lemma DeleteTwice(s: State, id: Id)
    requires Consistent(s)
    ensures var o := Delete(s, Post, ObjId(id));
      var o2 := Delete(o.state, Post, ObjId(id));
      o2.response == Fail(404, "Coupon not found") && o2.state == o.state
  {
  }
}

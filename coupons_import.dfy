/**
 * `POST /api/coupons/import`: one coupon per non-blank line of an
 * uploaded text file, inserted raw (no schema, no defaults) one after
 * another until an insert fails.
 */
module CouponsImportApi {
  import opened Wrappers
  import opened Clock
  import opened Codes
  import opened Lines
  import opened Models
  import opened CouponTable
  import opened Http
  import opened Db
  import opened Batches

  /** `parseInt(fields.daysUntilExpiry?.[0] || '2')`. */
  function ImportDays(days: Option<int>): (d: int)
    ensures days.None? ==> d == 2
    ensures days.Some? ==> d == days.value
  {
    if days.Some? then days.value else 2
  }

  /**
   * The documents of the loop, one per link: a code cut from the k-th
   * random text, the link, the name ('' by default), unclaimed, created
   * now, expiring `days` days from now at the same time of day, and the
   * session's email (absent when it has none).
   */
  function ImportDocs(links: seq<string>, name: Option<string>, days: int, email: Option<string>,
                      random: nat -> RandomText, now: Time): (docs: seq<Coupon>)
    ensures |docs| == |links|
    ensures forall k | 0 <= k < |links| ::
      docs[k] == Coupon(ImportCode(random(k)), links[k], OrElse(name, ""), false, None, None, now, PlusDays(now, days), email)
  {
    seq(|links|, k requires 0 <= k < |links| =>
      Coupon(ImportCode(random(k)), links[k], OrElse(name, ""), false, None, None, now, PlusDays(now, days), email))
  }

  /**
   * The handler. Refusals change nothing. The documents inserted are those
   * of a prefix of the parsed links, in order; a 200 inserted all of them
   * and returns them, a 500 keeps the ones inserted before the failing one.
   */
  function ImportCoupons(s: State, session: Option<Session>, verb: Verb, file: Option<string>, name: Option<string>,
                         days: Option<int>, random: nat -> RandomText, now: Time): (o: Outcome)
    requires Consistent(s)
    ensures Consistent(o.state)
    ensures o.state.storedLinks == s.storedLinks && o.state.linkRecords == s.linkRecords
    ensures Extends(s.coupons, o.state.coupons)
    ensures verb != Post ==> o == Outcome(s, NotAllowedJson)
    ensures verb == Post && session.None? ==> o == Outcome(s, Unauthorized)
    ensures verb == Post && session.Some? && file.None? ==> o == Outcome(s, Fail(400, "No file uploaded"))
    ensures verb == Post && session.Some? && file.Some? && ParseLinks(file.value) == []
      ==> o == Outcome(s, Fail(400, "No valid links found in file"))
    ensures o.response.status == 200 ==>
      && verb == Post && session.Some? && file.Some?
      && o.response.body.CouponsImported?
      && o.response.body.count == |o.response.body.rows| == |ParseLinks(file.value)|
      && Stored(o.response.body.rows, o.state.coupons)
      && |o.state.coupons.byId| == |s.coupons.byId| + |o.response.body.rows|
      && forall k | 0 <= k < |o.response.body.rows| ::
           o.response.body.rows[k].1
             == ImportDocs(ParseLinks(file.value), name, ImportDays(days), session.value.email, random, now)[k]
  {
    if verb != Post then
      Outcome(s, NotAllowedJson)
    else if session.None? then
      Outcome(s, Unauthorized)
    else if file.None? then
      Outcome(s, Fail(400, "No file uploaded"))
    else
      var links := ParseLinks(file.value);
      if links == [] then
        Outcome(s, Fail(400, "No valid links found in file"))
      else
        var docs := ImportDocs(links, name, ImportDays(days), session.value.email, random, now);
        var b := InsertUntilFailure(s.coupons, docs);
        InsertUntilFailurePrefix(s.coupons, docs);
        InsertUntilFailureStores(s.coupons, docs);
        if b.failed then
          Outcome(s.(coupons := b.table), Fail(500, "Failed to import coupons"))
        else
          Outcome(s.(coupons := b.table), Response(200, [], CouponsImported(|b.rows|, b.rows)))
  }

  /**
   * A 500 after the file was parsed is a duplicate code: the document for
   * the first link not inserted carries a code already in the collection.
   */
  lemma ImportStopsAtDuplicate(s: State, session: Option<Session>, file: string, name: Option<string>,
                               days: Option<int>, random: nat -> RandomText, now: Time)
    requires Consistent(s) && session.Some? && ParseLinks(file) != []
    requires ImportCoupons(s, session, Post, Some(file), name, days, random, now).response.status == 500
    ensures var docs := ImportDocs(ParseLinks(file), name, ImportDays(days), session.value.email, random, now);
      var b := InsertUntilFailure(s.coupons, docs);
      && |b.rows| < |docs|
      && (exists id | id in b.table.byId :: b.table.byId[id].code == docs[|b.rows|].code)
      && ImportCoupons(s, session, Post, Some(file), name, days, random, now).state.coupons == b.table
  {
    var docs := ImportDocs(ParseLinks(file), name, ImportDays(days), session.value.email, random, now);
    InsertUntilFailurePrefix(s.coupons, docs);
  }

  /**
   * Without `daysUntilExpiry`, every coupon a 200 imported expires two
   * days after the request, at the same time of day.
   */
  lemma ImportDefaultExpiry(s: State, session: Option<Session>, file: string, name: Option<string>,
                            random: nat -> RandomText, now: Time)
    requires Consistent(s)
    requires ImportCoupons(s, session, Post, Some(file), name, None, random, now).response.status == 200
    ensures var rows := ImportCoupons(s, session, Post, Some(file), name, None, random, now).response.body.rows;
      forall k | 0 <= k < |rows| :: rows[k].1.expiresAt == PlusDays(now, 2) && Day(rows[k].1.expiresAt) == Day(now) + 2
  {
    var rows := ImportCoupons(s, session, Post, Some(file), name, None, random, now).response.body.rows;
    var docs := ImportDocs(ParseLinks(file), name, ImportDays(None), session.value.email, random, now);
    forall k | 0 <= k < |rows|
      ensures rows[k].1.expiresAt == PlusDays(now, 2) && Day(rows[k].1.expiresAt) == Day(now) + 2
    {
      assert rows[k].1 == docs[k];
    }
  }
}

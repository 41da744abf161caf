/**
 * `GET /api/analytics/stats`: read-only counters over the signed-in
 * user's raw link records (matched on `session.user.id`) and coupons
 * (matched on `createdBy == session.user.email`), with a seven-day
 * window for recent activity.
 */
module AnalyticsApi {
  import opened Wrappers
  import opened Clock
  import opened Counting
  import opened Models
  import opened CouponTable
  import opened Http
  import opened Db
  import opened LinkRecords
  import opened ClaimApi

  /** The filter `{ createdBy: email }`. */
  function Mine(email: Option<string>): Row -> bool {
    (r: Row) => r.1.createdBy == email
  }

  /** The filter `{ createdBy: email, isClaimed: true }`. */
  function ClaimedOf(email: Option<string>): Row -> bool {
    (r: Row) => r.1.createdBy == email && r.1.isClaimed
  }

  /** The user's coupons not yet claimed, whatever their expiry. */
  function UnclaimedOf(email: Option<string>): Row -> bool {
    (r: Row) => r.1.createdBy == email && !r.1.isClaimed
  }

  /** The filter `{ createdBy: email, isClaimed: false, expiresAt: { $gt: now } }`. */
  function ActiveOf(email: Option<string>, now: Time): Row -> bool {
    (r: Row) => r.1.createdBy == email && !r.1.isClaimed && r.1.expiresAt > now
  }

  /** The filter `{ createdBy: email, isClaimed: false, expiresAt: { $lte: now } }`. */
  function ExpiredOf(email: Option<string>, now: Time): Row -> bool {
    (r: Row) => r.1.createdBy == email && !r.1.isClaimed && r.1.expiresAt <= now
  }

  /** The filter `{ createdBy: email, createdAt: { $gte: since } }`. */
  function CreatedSince(email: Option<string>, since: Time): Row -> bool {
    (r: Row) => r.1.createdBy == email && r.1.createdAt >= since
  }

  /** The filter `{ createdBy: email, isClaimed: true, claimedAt: { $gte: since } }`; a null `claimedAt` never matches. */
  function ClaimedSince(email: Option<string>, since: Time): Row -> bool {
    (r: Row) => r.1.createdBy == email && r.1.isClaimed && r.1.claimedAt.Some? && r.1.claimedAt.value >= since
  }

  /**
   * The ten counters. Used links are exactly the user's consumed records;
   * every coupon of the user is claimed, active or expired and only one
   * of them; the seven-day counts never exceed the totals they narrow.
   */
  function Stats(s: State, userId: Option<string>, email: Option<string>, now: Time): (r: Report)
    requires Consistent(s)
    ensures r.availableLinks <= r.totalLinks
    ensures r.usedLinks == Count(s.linkRecords, UsedOf(userId))
    ensures r.claimedCoupons + r.activeCoupons + r.expiredCoupons == r.totalCoupons
    ensures r.recentImports <= r.totalLinks
    ensures r.recentGenerated <= r.totalCoupons
    ensures r.recentClaims <= r.claimedCoupons
  {
    var recs := s.linkRecords;
    var rows := Rows(s.coupons);
    var since := SevenDaysAgo(now);
    AvailableAtMostTotal(recs, userId);
    UsedIsRest(recs, userId);
    RecentAtMostTotal(recs, userId, since);
    CountPartition(rows, Mine(email), ClaimedOf(email), UnclaimedOf(email));
    CountPartition(rows, UnclaimedOf(email), ActiveOf(email, now), ExpiredOf(email, now));
    CountMono(rows, CreatedSince(email, since), Mine(email));
    CountMono(rows, ClaimedSince(email, since), ClaimedOf(email));
    var total := Count(recs, OfUser(userId));
    var available := Count(recs, AvailableOf(userId));
    Report(
      totalLinks := total,
      availableLinks := available,
      usedLinks := total - available,
      totalCoupons := Count(rows, Mine(email)),
      claimedCoupons := Count(rows, ClaimedOf(email)),
      activeCoupons := Count(rows, ActiveOf(email, now)),
      expiredCoupons := Count(rows, ExpiredOf(email, now)),
      recentImports := Count(recs, ImportedSince(userId, since)),
      recentGenerated := Count(rows, CreatedSince(email, since)),
      recentClaims := Count(rows, ClaimedSince(email, since)))
  }

  /**
   * The handler: GET only, then a session, then the report. It returns a
   * response and no new database: no collection is written.
   */
  function AnalyticsStats(s: State, session: Option<Session>, verb: Verb, now: Time): (resp: Response)
    requires Consistent(s)
    ensures verb != Get ==> resp == NotAllowedJson
    ensures verb == Get && session.None? ==> resp == Unauthorized
    ensures resp.status == 200 <==> verb == Get && session.Some?
    ensures resp.status == 200 ==> resp.body.Analytics?
    ensures resp.status == 200
      ==> resp.body.report.claimedCoupons + resp.body.report.activeCoupons + resp.body.report.expiredCoupons == resp.body.report.totalCoupons
    ensures resp.status == 200 ==> resp.body.report.usedLinks == Count(s.linkRecords, UsedOf(session.value.userId))
  {
    if verb != Get then NotAllowedJson
    else if session.None? then Unauthorized
    else Response(200, [], Analytics(Stats(s, session.value.userId, session.value.email, now)))
  }

  /**
   * The expiry boundary differs between the statistics and the claim: an
   * unclaimed coupon whose `expiresAt` is exactly now is counted as
   * expired and not active, yet a claim at that instant succeeds.
   */
  lemma ExpiredYetClaimable(s: State, id: Id, who: Requester, userId: Option<string>)
    requires Consistent(s) && id in s.coupons.byId
    requires var c := s.coupons.byId[id]; c.code != "" && !c.isClaimed && Conforms(c)
    ensures var c := s.coupons.byId[id];
      && ExpiredOf(c.createdBy, c.expiresAt)((id, c)) && !ActiveOf(c.createdBy, c.expiresAt)((id, c))
      && Stats(s, userId, c.createdBy, c.expiresAt).expiredCoupons >= 1
      && Claim(s, Post, Some(c.code), who, c.expiresAt).response.status == 200
  {
    var c := s.coupons.byId[id];
    RowsComplete(s.coupons, id);
    var rows := Rows(s.coupons);
    var i :| 0 <= i < |rows| && rows[i] == (id, c);
    CountHit(rows, i, ExpiredOf(c.createdBy, c.expiresAt));
    ExpiryBoundary(s, id, who);
  }
}

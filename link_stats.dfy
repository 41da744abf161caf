/**
 * `GET /api/links/stats`: the signed-in user's total and available raw
 * link records, nested under `storedLinks`, with the user id and up to
 * five of the user's records echoed for debugging.
 */
module LinkStatsApi {
  import opened Wrappers
  import opened Clock
  import opened Counting
  import opened Http
  import opened Db
  import opened LinkRecords
  import opened LinksImportApi
  import opened AnalyticsApi

  /** How many records `find(...).limit(5)` echoes. */
  const SampleSize: nat := 5

  /**
   * The handler: GET only, then a session, then the counts. It returns a
   * response and no new database: no collection is written. Available
   * links never outnumber the total, and the sample holds only the
   * user's own records, five of them unless the user has fewer.
   */
  function LinkStats(s: State, session: Option<Session>, verb: Verb): (resp: Response)
    ensures verb != Get ==> resp == NotAllowedJson
    ensures verb == Get && session.None? ==> resp == Unauthorized
    ensures resp.status == 200 <==> verb == Get && session.Some?
    ensures resp.status == 200 ==> resp.body.LinkCounts? && resp.body.userId == session.value.userId
    ensures resp.status == 200 ==> resp.body.available <= resp.body.total
    ensures resp.status == 200 ==> resp.body.total - resp.body.available == Count(s.linkRecords, UsedOf(session.value.userId))
    ensures resp.status == 200 ==> |resp.body.sample| == if resp.body.total < SampleSize then resp.body.total else SampleSize
    ensures resp.status == 200
      ==> forall i | 0 <= i < |resp.body.sample| :: resp.body.sample[i].userId == session.value.userId && resp.body.sample[i] in s.linkRecords
  {
    if verb != Get then NotAllowedJson
    else if session.None? then Unauthorized
    else
      var u := session.value.userId;
      AvailableAtMostTotal(s.linkRecords, u);
      UsedIsRest(s.linkRecords, u);
      Response(200, [], LinkCounts(Count(s.linkRecords, OfUser(u)), Count(s.linkRecords, AvailableOf(u)), u,
                                   Sample(s.linkRecords, u, SampleSize)))
  }

  /** The link statistics and the analytics report agree on the user's link counts. */
  lemma StatsAgree(s: State, session: Session, now: Time)
    requires Consistent(s)
    ensures var links := LinkStats(s, Some(session), Get).body;
      var report := AnalyticsStats(s, Some(session), Get, now).body.report;
      && links.total == report.totalLinks
      && links.available == report.availableLinks
      && links.total - links.available == report.usedLinks
  {
  }

  /**
   * Importing links is seen by the statistics: after a successful import
   * the user's total and available counts are each higher by the number
   * of links imported, and equal to the counts the import reported.
   */
  lemma ImportShowsInStats(s: State, session: Session, links: seq<string>, now: Time)
    requires Consistent(s)
    requires ImportLinks(s, Some(session), Post, Some(links), now).response.status == 200
    ensures var o := ImportLinks(s, Some(session), Post, Some(links), now);
      var before := LinkStats(s, Some(session), Get).body;
      var after := LinkStats(o.state, Some(session), Get).body;
      && after.total == before.total + |links|
      && after.available == before.available + |links|
      && after.total == o.response.body.total
      && after.available == o.response.body.available
  {
  }
}

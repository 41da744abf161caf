/**
 * `POST /api/links/import`: appends one raw record per submitted URL to
 * the `storedLinks` collection, owned by the session's user, and reports
 * that user's new totals.
 */
module LinksImportApi {
  import opened Wrappers
  import opened Clock
  import opened Counting
  import opened Http
  import opened Db
  import opened LinkRecords

  /**
   * The handler. Refusals change nothing. A 200 appends exactly one
   * unused record per URL, in order and without trimming or
   * de-duplication, touches no other collection, and reports counts that
   * grew by the number of URLs.
   */
  function ImportLinks(s: State, session: Option<Session>, verb: Verb, links: Option<seq<string>>, now: Time): (o: Outcome)
    requires Consistent(s)
    ensures Consistent(o.state)
    ensures o.response.status != 200 ==> o.state == s
    ensures verb != Post ==> o.response == NotAllowedJson
    ensures verb == Post && session.None? ==> o.response == Unauthorized
    ensures verb == Post && session.Some? && (links.None? || links.value == []) ==> o.response == Fail(400, "No links provided")
    ensures o.response.status == 200 <==> verb == Post && session.Some? && links.Some? && links.value != []
    ensures o.response.status == 200 ==>
      && o.state == s.(linkRecords := s.linkRecords + NewRecords(links.value, session.value.userId, now))
      && o.response.body.LinksImported?
      && o.response.body.count == |links.value|
      && o.response.body.message == "Links imported successfully"
      && o.response.body.total == Count(s.linkRecords, OfUser(session.value.userId)) + |links.value|
      && o.response.body.available == Count(s.linkRecords, AvailableOf(session.value.userId)) + |links.value|
      && o.response.body.available <= o.response.body.total
  {
    if verb != Post then
      Outcome(s, NotAllowedJson)
    else if session.None? then
      Outcome(s, Unauthorized)
    else if links.None? || links.value == [] then
      Outcome(s, Fail(400, "No links provided"))
    else
      var u := session.value.userId;
      var recs := s.linkRecords + NewRecords(links.value, u, now);
      ImportAddsToCounts(s.linkRecords, links.value, u, now, u);
      AvailableAtMostTotal(recs, u);
      Outcome(s.(linkRecords := recs),
              Response(200, [], LinksImported(|links.value|, Count(recs, OfUser(u)), Count(recs, AvailableOf(u)), "Links imported successfully")))
  }
}

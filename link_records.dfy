/**
 * The raw `storedLinks` collection written by the link import
 * (`{ url, userId, usedInCoupon, createdAt, updatedAt }`), and the
 * per-user counts the import and the statistics endpoints read from it.
 */
module LinkRecords {
  import opened Wrappers
  import opened Clock
  import opened Counting

  datatype LinkRecord = LinkRecord(
    url: string,
    userId: Option<string>,
    usedInCoupon: bool,
    createdAt: Time,
    updatedAt: Time)

  /** The filter `{ userId }`. */
  function OfUser(u: Option<string>): LinkRecord -> bool {
    (r: LinkRecord) => r.userId == u
  }

  /** The filter `{ userId, usedInCoupon: false }`. */
  function AvailableOf(u: Option<string>): LinkRecord -> bool {
    (r: LinkRecord) => r.userId == u && !r.usedInCoupon
  }

  /** The user's records already consumed by a coupon. */
  function UsedOf(u: Option<string>): LinkRecord -> bool {
    (r: LinkRecord) => r.userId == u && r.usedInCoupon
  }

  /** The filter `{ userId, createdAt: { $gte: since } }`. */
  function ImportedSince(u: Option<string>, since: Time): LinkRecord -> bool {
    (r: LinkRecord) => r.userId == u && r.createdAt >= since
  }

  /** The records one `insertOne` per url writes: unused, owned by `u`, stamped `now`. */
  function NewRecords(urls: seq<string>, u: Option<string>, now: Time): (recs: seq<LinkRecord>)
    ensures |recs| == |urls|
    ensures forall i | 0 <= i < |urls| :: recs[i].url == urls[i] && recs[i].userId == u && !recs[i].usedInCoupon
    ensures forall i | 0 <= i < |urls| :: recs[i].createdAt == now && recs[i].updatedAt == now
  {
    seq(|urls|, i requires 0 <= i < |urls| => LinkRecord(urls[i], u, false, now, now))
  }

  /** The records for one more url are the earlier ones followed by that url's record. */
  lemma NewRecordsSnoc(urls: seq<string>, u: Option<string>, now: Time, i: nat)
    requires i < |urls|
    ensures NewRecords(urls[..i + 1], u, now) == NewRecords(urls[..i], u, now) + [LinkRecord(urls[i], u, false, now, now)]
  {
  }

  /** A user's available links are among that user's links. */
  lemma AvailableAtMostTotal(recs: seq<LinkRecord>, u: Option<string>)
    ensures Count(recs, AvailableOf(u)) <= Count(recs, OfUser(u))
  {
    CountMono(recs, AvailableOf(u), OfUser(u));
  }

  /** Total minus available is exactly the number of the user's used records. */
  lemma UsedIsRest(recs: seq<LinkRecord>, u: Option<string>)
    ensures Count(recs, OfUser(u)) - Count(recs, AvailableOf(u)) == Count(recs, UsedOf(u))
  {
    CountPartition(recs, OfUser(u), AvailableOf(u), UsedOf(u));
  }

  /** Links imported in a window are among the user's links. */
  lemma RecentAtMostTotal(recs: seq<LinkRecord>, u: Option<string>, since: Time)
    ensures Count(recs, ImportedSince(u, since)) <= Count(recs, OfUser(u))
  {
    CountMono(recs, ImportedSince(u, since), OfUser(u));
  }

  /**
   * Importing `urls` for user `u` adds exactly `|urls|` to both the user's
   * total and available counts, and leaves every other user's counts alone.
   */
  lemma ImportAddsToCounts(recs: seq<LinkRecord>, urls: seq<string>, u: Option<string>, now: Time, v: Option<string>)
    ensures var after := recs + NewRecords(urls, u, now);
      && Count(after, OfUser(u)) == Count(recs, OfUser(u)) + |urls|
      && Count(after, AvailableOf(u)) == Count(recs, AvailableOf(u)) + |urls|
      && (v != u ==> Count(after, OfUser(v)) == Count(recs, OfUser(v)))
      && (v != u ==> Count(after, AvailableOf(v)) == Count(recs, AvailableOf(v)))
  {
    var added := NewRecords(urls, u, now);
    CountAppend(recs, added, OfUser(u));
    CountAppend(recs, added, AvailableOf(u));
    CountFull(added, OfUser(u));
    CountFull(added, AvailableOf(u));
    if v != u {
      CountAppend(recs, added, OfUser(v));
      CountAppend(recs, added, AvailableOf(v));
      CountEmpty(added, OfUser(v));
      CountEmpty(added, AvailableOf(v));
    }
  }

  /** The user's records in collection order. */
  function Owned(recs: seq<LinkRecord>, u: Option<string>): (mine: seq<LinkRecord>)
    ensures |mine| == Count(recs, OfUser(u))
    ensures forall i | 0 <= i < |mine| :: mine[i].userId == u && mine[i] in recs
  {
    if recs == [] then []
    else
      var n := |recs| - 1;
      var before := Owned(recs[..n], u);
      assert forall i | 0 <= i < |before| :: before[i] in recs[..n] ==> before[i] in recs;
      if recs[n].userId == u then before + [recs[n]] else before
  }

  /** `find({ userId }).limit(limit)`: up to `limit` of the user's records. */
  function Sample(recs: seq<LinkRecord>, u: Option<string>, limit: nat): (some: seq<LinkRecord>)
    ensures |some| == if limit < Count(recs, OfUser(u)) then limit else Count(recs, OfUser(u))
    ensures forall i | 0 <= i < |some| :: some[i].userId == u && some[i] in recs
  {
    var mine := Owned(recs, u);
    if limit < |mine| then mine[..limit] else mine
  }
}

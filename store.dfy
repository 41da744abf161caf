/**
 * The database as one mutable object, and the handlers as methods that
 * change it the way the route code does: load a document, assign its
 * fields, save it, or insert documents one at a time in a loop. Each
 * method leaves exactly the database and sends exactly the response that
 * the handler's function states.
 */
module Server {
  import opened Wrappers
  import opened Clock
  import opened Codes
  import opened Lines
  import opened Models
  import opened CouponTable
  import opened LinkRecords
  import opened Http
  import opened Db
  import opened Batches
  import opened LinkPool
  import opened Listing
  import opened ClaimApi
  import opened RedeemApi
  import opened CouponsApi
  import opened BulkApi
  import opened ExtendApi
  import opened DeleteApi
  import opened GenerateApi
  import opened LinksImportApi
  import opened CouponsImportApi

  class Store {
    /** The `coupons` collection. */
    var coupons: Table
    /** The collection of the `StoredLink` model. */
    var storedLinks: seq<StoredLink>
    /** The raw `storedLinks` collection. */
    var linkRecords: seq<LinkRecord>

    function Snapshot(): State
      reads this
    {
      State(coupons, storedLinks, linkRecords)
    }

    ghost predicate Valid()
      reads this
    {
      Consistent(Snapshot())
    }

    /** An empty database. */
    constructor ()
      ensures Valid()
      ensures coupons == CouponTable.Empty && storedLinks == [] && linkRecords == []
    {
      coupons := CouponTable.Empty;
      storedLinks := [];
      linkRecords := [];
      EmptyValid();
    }

    /** `POST /api/coupons/claim`: find the coupon by code, check it, set its claim fields and save. */
    method Claim(verb: Verb, code: Option<string>, who: Requester, now: Time) returns (r: Response)
      requires Valid()
      modifies this
      ensures Valid()
      ensures Outcome(Snapshot(), r) == ClaimApi.Claim(old(Snapshot()), verb, code, who, now)
    {
      if verb != Post {
        return NotAllowedText(verb, [Post]);
      }
      if !Given(code) {
        return Fail(400, "Coupon code is required");
      }
      var found := Lookup(coupons, code.value);
      if found.None? {
        return Fail(404, "Coupon not found");
      }
      var id := found.value;
      var c := coupons.byId[id];
      if c.isClaimed {
        return Fail(400, "Coupon has already been claimed");
      }
      if c.expiresAt < now {
        return Fail(400, "Coupon has expired");
      }
      c := c.(isClaimed := true);
      c := c.(claimedAt := Some(now));
      c := c.(claimedBy := Some(who));
      if !Conforms(c) {
        return Fail(500, "Failed to claim coupon");
      }
      coupons := Update(coupons, id, c);
      r := Response(200, [], Claimed("Coupon claimed successfully", c.claimLink));
    }

    /** `POST /api/coupons/redeem`: as the claim, without the expiry check. */
    method Redeem(verb: Verb, code: Option<string>, who: Requester, now: Time) returns (r: Response)
      requires Valid()
      modifies this
      ensures Valid()
      ensures Outcome(Snapshot(), r) == RedeemApi.Redeem(old(Snapshot()), verb, code, who, now)
    {
      if verb != Post {
        return NotAllowedText(verb, [Post]);
      }
      if !Given(code) {
        return Fail(400, "Code is required");
      }
      var found := Lookup(coupons, code.value);
      if found.None? {
        return Fail(404, "Invalid code");
      }
      var id := found.value;
      var c := coupons.byId[id];
      if c.isClaimed {
        return Fail(400, "Code has already been claimed");
      }
      c := c.(isClaimed := true);
      c := c.(claimedAt := Some(now));
      c := c.(claimedBy := Some(who));
      if !Conforms(c) {
        return Fail(500, "Failed to redeem coupon");
      }
      coupons := Update(coupons, id, c);
      r := Response(200, [], LinkOnly(c.claimLink));
    }

    /** `POST /api/coupons/extend`: find the coupon by id, assign its new expiry and save. */
    method Extend(session: Option<Session>, verb: Verb, couponId: IdParam, daysToAdd: Option<int>, now: Time) returns (r: Response)
      requires Valid()
      modifies this
      ensures Valid()
      ensures Outcome(Snapshot(), r) == ExtendApi.Extend(old(Snapshot()), session, verb, couponId, daysToAdd, now)
    {
      if verb != Post {
        return NotAllowedJson;
      }
      if session.None? {
        return Unauthorized;
      }
      if couponId.NoId? || daysToAdd.None? || daysToAdd.value == 0 {
        return Fail(400, "Coupon ID and days to add are required");
      }
      if couponId.BadId? {
        return Fail(500, "Failed to extend coupon expiration");
      }
      var id := couponId.id;
      if id !in coupons.byId {
        return Fail(404, "Coupon not found");
      }
      var c := coupons.byId[id];
      c := c.(expiresAt := ExpiryAfterDays(now, daysToAdd.value));
      if !Conforms(c) {
        return Fail(500, "Failed to extend coupon expiration");
      }
      coupons := Update(coupons, id, c);
      r := Response(200, [], Extended("Coupon expiration extended successfully", (id, c)));
    }

    /** `POST /api/coupons/delete`: `deleteOne` by id. */
    method Delete(verb: Verb, couponId: IdParam) returns (r: Response)
      requires Valid()
      modifies this
      ensures Valid()
      ensures Outcome(Snapshot(), r) == DeleteApi.Delete(old(Snapshot()), verb, couponId)
    {
      if verb != Post {
        return NotAllowedJson;
      }
      if couponId.NoId? {
        return Fail(400, "Coupon ID is required");
      }
      if couponId.BadId? {
        return Fail(500, "Internal server error");
      }
      var removed;
      coupons, removed := Remove(coupons, couponId.id).0, Remove(coupons, couponId.id).1;
      if !removed {
        return Fail(404, "Coupon not found");
      }
      r := Response(200, [], Deleted);
    }

    /** `/api/coupons`: the newest-first listing, or one `Coupon.create`. */
    method Coupons(session: Option<Session>, verb: Verb, claimLink: Option<string>, name: Option<string>,
                   days: Option<int>, code: NanoCode, now: Time) returns (r: Response)
      requires Valid()
      modifies this
      ensures Valid()
      ensures Outcome(Snapshot(), r) == CouponsApi.Coupons(old(Snapshot()), session, verb, claimLink, name, days, code, now)
    {
      if session.None? {
        return Unauthorized;
      }
      if verb == Get {
        return Response(200, [], CouponList(NewestFirst(coupons)));
      }
      if verb != Post {
        return NotAllowedText(verb, [Get, Post]);
      }
      if !Given(claimLink) {
        return Fail(400, "Claim link is required");
      }
      if !ValidDays(days) {
        return Fail(400, "Days until expiry must be at least 1");
      }
      var f := Draft(session.value, claimLink, name, days.value, code, now);
      var created := CreateOne(f, now);
      if created.None? {
        return Fail(500, "Internal server error");
      }
      r := Response(201, [], OneCoupon(created.value));
    }

    /** `Coupon.create(f)`: validation, then the unique index; the created document, if any. */
    method CreateOne(f: CouponFields, now: Time) returns (created: Option<Row>)
      requires CouponTable.Valid(coupons)
      modifies this
      ensures CouponTable.Valid(coupons) && storedLinks == old(storedLinks) && linkRecords == old(linkRecords)
      ensures coupons == Create(old(coupons), f, now).0
      ensures created.Some? <==> Create(old(coupons), f, now).1.Some?
      ensures created.Some? ==> created.value.0 == Create(old(coupons), f, now).1.value
      ensures created.Some? ==> created.value.0 in coupons.byId && created.value.1 == coupons.byId[created.value.0]
    {
      var (t, made) := Create(coupons, f, now);
      coupons := t;
      if made.Some? {
        created := Some((made.value, t.byId[made.value]));
      } else {
        created := None;
      }
    }

    /** `insertOne(doc)` on the raw collection: refused only by the unique index. */
    method InsertOne(doc: Coupon) returns (inserted: Option<Id>)
      requires CouponTable.Valid(coupons)
      modifies this
      ensures CouponTable.Valid(coupons) && storedLinks == old(storedLinks) && linkRecords == old(linkRecords)
      ensures (coupons, inserted) == CouponTable.Insert(old(coupons), doc)
    {
      var (t, made) := CouponTable.Insert(coupons, doc);
      coupons, inserted := t, made;
    }

    /** The `Promise.all` of the bulk handler: one `Coupon.create` per link, in order; a refused create does not stop the others. */
    method CreatePerLink(session: Session, links: seq<string>, name: Option<string>, days: int,
                         codes: nat -> NanoCode, now: Time) returns (rows: seq<Row>, failed: bool)
      requires CouponTable.Valid(coupons)
      modifies this
      ensures Batch(coupons, rows, failed) == CreateEach(old(coupons), BulkDrafts(session, links, name, days, codes, now), now)
      ensures storedLinks == old(storedLinks) && linkRecords == old(linkRecords)
    {
      ghost var t0 := coupons;
      ghost var drafts := BulkDrafts(session, links, name, days, codes, now);
      ghost var b := Batch(coupons, [], false);
      rows, failed := [], false;
      var i := 0;
      while i < |links|
        invariant 0 <= i <= |links|
        invariant b == CreateEach(t0, drafts[..i], now)
        invariant coupons == b.table && rows == b.rows && failed == b.failed
        invariant storedLinks == old(storedLinks) && linkRecords == old(linkRecords)
      {
        var f := Draft(session, Some(links[i]), name, days, codes(i), now);
        assert f == drafts[i];
        CreateEachNext(t0, drafts, i, now);
        CreateStepCreates(b, f, now);
        var created := CreateOne(f, now);
        if created.None? {
          failed := true;
        } else {
          rows := rows + [created.value];
        }
        b := CreateStep(b, f, now);
        i := i + 1;
      }
      assert drafts[..i] == drafts;
    }

    /** `POST /api/coupons/bulk`. */
    method Bulk(session: Option<Session>, verb: Verb, links: Option<seq<string>>, name: Option<string>,
                days: Option<int>, codes: nat -> NanoCode, now: Time) returns (r: Response)
      requires Valid()
      modifies this
      ensures Valid()
      ensures Outcome(Snapshot(), r) == BulkApi.Bulk(old(Snapshot()), session, verb, links, name, days, codes, now)
    {
      if verb != Post {
        return NotAllowedJson;
      }
      if session.None? {
        return Unauthorized;
      }
      if links.None? || links.value == [] {
        return Fail(400, "Links are required");
      }
      if !ValidDays(days) {
        return Fail(400, "Days until expiry must be at least 1");
      }
      var rows, failed := CreatePerLink(session.value, links.value, name, days.value, codes, now);
      if failed {
        return Fail(500, "Failed to create bulk coupons");
      }
      r := Response(201, [], CouponList(rows));
    }

    /** `POST /api/links/generate-coupons`: load the first `count` unused links and fan out over them. */
    method Generate(session: Option<Session>, verb: Verb, count: Option<int>, days: Option<int>,
                    codes: nat -> NanoCode, now: Time) returns (r: Response)
      requires Valid()
      modifies this
      ensures Valid()
      ensures Outcome(Snapshot(), r) == GenerateApi.Generate(old(Snapshot()), session, verb, count, days, codes, now)
    {
      if verb != Post {
        return NotAllowedText(verb, [Post]);
      }
      if session.None? {
        return Unauthorized;
      }
      if !AtLeastOne(count) {
        return Fail(400, "Count must be at least 1");
      }
      if !ValidDays(days) {
        return Fail(400, "Days until expiry must be at least 1");
      }
      assert GenerateApi.Generate(old(Snapshot()), session, verb, count, days, codes, now)
        == GenerateAccepted(old(Snapshot()), CreatorOf(session.value), count.value, days.value, codes, now);
      var o := RunAccepted(Snapshot(), CreatorOf(session.value), count.value, days.value, codes, now);
      coupons, storedLinks := o.state.coupons, o.state.storedLinks;
      r := o.response;
    }

    /** `POST /api/links/import`: one `insertOne` per url, then the two counts. */
    method ImportLinks(session: Option<Session>, verb: Verb, links: Option<seq<string>>, now: Time) returns (r: Response)
      requires Valid()
      modifies this
      ensures Valid()
      ensures Outcome(Snapshot(), r) == LinksImportApi.ImportLinks(old(Snapshot()), session, verb, links, now)
    {
      if verb != Post {
        return NotAllowedJson;
      }
      if session.None? {
        return Unauthorized;
      }
      if links.None? || links.value == [] {
        return Fail(400, "No links provided");
      }
      var u := session.value.userId;
      var i := 0;
      while i < |links.value|
        invariant 0 <= i <= |links.value|
        invariant linkRecords == old(linkRecords) + NewRecords(links.value[..i], u, now)
        invariant coupons == old(coupons) && storedLinks == old(storedLinks)
      {
        NewRecordsSnoc(links.value, u, now, i);
        linkRecords := linkRecords + [LinkRecord(links.value[i], u, false, now, now)];
        i := i + 1;
      }
      assert links.value[..i] == links.value;
      var total := Counting.Count(linkRecords, OfUser(u));
      var available := Counting.Count(linkRecords, AvailableOf(u));
      r := Response(200, [], LinksImported(|links.value|, total, available, "Links imported successfully"));
    }

    /**
     * The import loop: insert the document of each link in order and stop
     * at the first refused insert, keeping those inserted before it.
     */
    method InsertPerLink(links: seq<string>, name: Option<string>, days: int, email: Option<string>,
                         random: nat -> RandomText, now: Time) returns (rows: seq<Row>, failed: bool)
      requires CouponTable.Valid(coupons)
      modifies this
      ensures Batch(coupons, rows, failed) == InsertUntilFailure(old(coupons), ImportDocs(links, name, days, email, random, now))
      ensures storedLinks == old(storedLinks) && linkRecords == old(linkRecords)
    {
      ghost var t0 := coupons;
      ghost var docs := ImportDocs(links, name, days, email, random, now);
      ghost var b := Batch(coupons, [], false);
      rows, failed := [], false;
      var k := 0;
      while k < |links|
        invariant 0 <= k <= |links|
        invariant b == InsertUntilFailure(t0, docs[..k])
        invariant coupons == b.table && rows == b.rows && !b.failed
        invariant storedLinks == old(storedLinks) && linkRecords == old(linkRecords)
      {
        var doc := Coupon(ImportCode(random(k)), links[k], OrElse(name, ""), false, None, None, now, PlusDays(now, days), email);
        assert doc == docs[k];
        InsertUntilFailureNext(t0, docs, k);
        InsertStepInserts(b, doc);
        var inserted := InsertOne(doc);
        b := InsertStep(b, doc);
        if inserted.None? {
          InsertUntilFailureSettles(t0, docs, k + 1);
          return rows, true;
        }
        rows := rows + [(inserted.value, doc)];
        k := k + 1;
      }
      assert docs[..k] == docs;
    }

    /** `POST /api/coupons/import`: split the file into links, then run the import loop. */
    method ImportCoupons(session: Option<Session>, verb: Verb, file: Option<string>, name: Option<string>,
                         days: Option<int>, random: nat -> RandomText, now: Time) returns (r: Response)
      requires Valid()
      modifies this
      ensures Valid()
      ensures Outcome(Snapshot(), r) == CouponsImportApi.ImportCoupons(old(Snapshot()), session, verb, file, name, days, random, now)
    {
      if verb != Post {
        return NotAllowedJson;
      }
      if session.None? {
        return Unauthorized;
      }
      if file.None? {
        return Fail(400, "No file uploaded");
      }
      var links := ParseLinks(file.value);
      if links == [] {
        return Fail(400, "No valid links found in file");
      }
      var rows, failed := InsertPerLink(links, name, ImportDays(days), session.value.email, random, now);
      if failed {
        return Fail(500, "Failed to import coupons");
      }
      r := Response(200, [], CouponsImported(|rows|, rows));
    }
  }
}
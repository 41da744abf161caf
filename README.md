# Coupon and link lifecycle of the LinkedIn coupon manager

This project models the request handlers of a small Next.js admin
application. The application hands out single-use coupon codes, and each
code maps to an externally sourced claim link. The model works over two
document collections plus a third raw collection:

- `coupons` holds the `Coupon` documents. It has a unique index on `code`.
- the `StoredLink` model's collection is the link pool that
  `generate-coupons` draws from.
- the raw `storedLinks` collection is where `links/import` writes
  `{url, userId, usedInCoupon}` records. The link statistics count these
  records.

Each handler is a transition over these collections. It validates its
input in a fixed order, returns a status and a JSON body, and changes
either nothing or a known set of documents.

The handlers are modelled twice:

- as pure functions from a database `State` to an `Outcome` (the new
  state and the `Response`), with their properties as contracts and
  lemmas;
- as methods of the class `Server.Store`. Its fields are the three
  collections. Each method is proved to leave exactly the state, and
  return exactly the response, that the function prescribes.

The handlers that loop are methods with loop invariants, proved against
fold functions over the list of items:

- `coupons/bulk` (`Store.CreatePerLink`);
- `links/generate-coupons` (`GenerateApi.CreatePerPick`);
- `coupons/import` (`Store.InsertPerLink`);
- `links/import` (`Store.ImportLinks`).

Modules follow the source:

- `Models`: the two Mongoose schemas.
- `CouponTable`: the `coupons` collection and its unique index.
- `Clock`: the `Date` arithmetic.
- `Codes`: `nanoid` and `Math.random` codes.
- `Lines`: the file parsing of `coupons/import`.
- `Batches`: the per-item create and insert loops.
- `LinkPool`: unused-link selection and marking.
- `LinkRecords`: the raw link records.
- `Listing`: the sorted GET.
- One module per handler: `ClaimApi`, `RedeemApi`, `CouponsApi`,
  `BulkApi`, `ExtendApi`, `DeleteApi`, `GenerateApi`, `LinksImportApi`,
  `CouponsImportApi`, `AnalyticsApi` and `LinkStatsApi`.
- `OneShot`: claim and redeem together.
- `Server`: the `Store` class.

How the model treats the runtime:

- **Time.** Time is integer milliseconds in one uniform time zone. The
  pattern `setDate(getDate() + n); setHours(23, 59, 59, 999)` is
  `ExpiryAfterDays(now, n)`, the last millisecond of day `Day(now) + n`.
  `coupons/import` only calls `setDate`, so its expiry is
  `PlusDays(now, n)`: the same time of day, n days later.
- **Randomness.** The `nanoid(10)` codes and the `Math.random()` texts
  are parameters: the k-th code or text of the request.
- **Requests.** The session, the HTTP verb and the requester's IP and
  user agent are parameters too.
- **Strings.** A string field counts as given when it is present and not
  `''`, as JavaScript truthiness has it.
- **Validation.** Mongoose validation fails a `Coupon.create` or a
  `save` when a required string is empty or absent. The unique index
  fails any insert of a code already stored.

Quirks of the code that the model keeps:

- `redeem` has no expiry check.
- `extend` recomputes the expiry from the current time, so it can shorten
  it, and it also extends claimed coupons.
- `delete` has no session check.
- `generate-coupons` reads neither `sellerName` nor the records written
  by `links/import`. Those records use `url`/`usedInCoupon`, while the
  pool filters on the model's `isUsed`, so the two link pools are
  disjoint.
- The statistics count an unclaimed coupon as expired when
  `expiresAt <= now`, but claim refuses it only when `expiresAt < now`.
- `coupons/import` inserts raw documents, so no schema defaults apply. A
  session without an email leaves `createdBy` absent. A later claim,
  redeem or extend of such a coupon then fails in `save` with a 500.

## Model

| member | source | states |
|---|---|---|
| Models.NewCoupon | src/models/Coupon.ts:3-43 | `Coupon.create` makes a document exactly when `code`, `claimLink` and `createdBy` are non-empty and `expiresAt` is given; the document then passes the schema, is unclaimed (`isClaimed` false, `claimedAt` and `claimedBy` null), has `name` defaulting to `'general'`, and `createdAt` equal to the creation instant |
| Models.MarkClaimed | src/pages/api/coupons/claim.ts:39-44 | sets `isClaimed`, `claimedAt := now` and `claimedBy := {ip, userAgent}`, and leaves every other field as it was, so schema conformance is unchanged |
| Models.NewStoredLink | src/models/StoredLink.ts:3-26 | a stored link exists exactly when `link` and `createdBy` are non-empty; it starts unused, with `usedAt` null and `createdAt` equal to the creation instant |
| Models.MarkUsed | src/pages/api/links/generate-coupons.ts:62-65 | sets `isUsed` and `usedAt := now` and keeps `link`, `createdAt` and `createdBy` |
| Http.CreatorOf | src/pages/api/coupons/index.ts:44 | `session.user?.email \|\| 'admin'`: the email when it is non-empty, otherwise `'admin'`; never empty |
| CouponTable.EmptyValid | src/models/Coupon.ts:4-8 | the empty collection satisfies the unique-index invariant |
| CouponTable.CodesUnique | src/models/Coupon.ts:4-8 | under the unique index, two distinct documents never share a code |
| CouponTable.Lookup | src/pages/api/coupons/claim.ts:19 | `findOne({ code })` returns the id of a document with that code, and returns none exactly when no document has it |
| CouponTable.Insert | src/pages/api/coupons/import.ts:64 | `insertOne` succeeds exactly when the code is not yet stored; it then adds exactly one document under a fresh id, and otherwise changes nothing |
| CouponTable.Create | src/pages/api/coupons/index.ts:39-45 | `Coupon.create` succeeds exactly when the schema accepts the fields and the code is free; it then adds exactly the default-filled document under a fresh id, and otherwise changes nothing |
| CouponTable.Update | src/pages/api/coupons/claim.ts:46 | `save` of a loaded document with its code unchanged replaces that one document and keeps the index valid |
| CouponTable.Remove | src/pages/api/coupons/delete.ts:18 | `deleteOne({ _id })` reports whether that id existed and removes exactly that document |
| CouponTable.Rows | src/pages/api/coupons/index.ts:20 | every row listed is a stored document under its own id, in ascending id order |
| CouponTable.RowsComplete | src/pages/api/coupons/index.ts:20 | every stored document appears in the listing |
| Clock.EndOfDay | src/pages/api/coupons/index.ts:37 | `setHours(23, 59, 59, 999)`: the instant lies in day `d` and the next millisecond in day `d + 1` |
| Clock.ExpiryAfterDays | src/pages/api/coupons/index.ts:35-37 | the expiry is the last millisecond of the day `n` days after today |
| Clock.PlusDays | src/pages/api/coupons/import.ts:49-50 | `setDate(getDate() + n)` alone: exactly `n` days later, same time of day |
| Clock.SevenDaysAgo | src/pages/api/analytics/stats.ts:58-59 | the instant seven days before now, on day `Day(now) - 7` |
| Clock.ExpiryWindow | src/pages/api/coupons/import.ts:49-50 | the import's expiry (`now + n` days) is never later than the end-of-day expiry of the other handlers, and that one is less than a day later |
| Clock.ExpiryAfterNow | src/pages/api/coupons/bulk.ts:27-32 | for a non-negative number of days the end-of-day expiry is not before now |
| Codes.Substring | src/pages/api/coupons/import.ts:48 | JavaScript `substring(start, end)`: the clamped slice, empty when `start` is past the end |
| Codes.UpperAll | src/pages/api/coupons/import.ts:48 | `toUpperCase` of base-36 text keeps the length and upper-cases each digit |
| Codes.ImportCode | src/pages/api/coupons/import.ts:48 | the import code is characters 2 to 14 of `Math.random().toString(36)`, upper-cased: at most 13 upper-case base-36 characters, each the upper-case of the text's character |
| Lines.Split | src/pages/api/coupons/import.ts:38 | `split('\n')`: at least one piece, and no piece contains a newline |
| Lines.SplitJoin | src/pages/api/coupons/import.ts:38 | splitting lines joined by newlines gives the lines back |
| Lines.JoinSplit | src/pages/api/coupons/import.ts:38 | joining the pieces of a split gives the text back |
| Lines.SplitConcat | src/pages/api/coupons/import.ts:38 | splitting `a + '\n' + b` is splitting `a`, then splitting `b` |
| Lines.Trim | src/pages/api/coupons/import.ts:38 | `trim()`: the result is empty or has no surrounding whitespace; a clean line is unchanged; all-whitespace text becomes empty |
| Lines.TrimIsSlice | src/pages/api/coupons/import.ts:38 | trimming removes only whitespace, and only from the two ends |
| Lines.ParseLinks | src/pages/api/coupons/import.ts:38 | every parsed link is non-empty, has no surrounding whitespace and no newline, and there are no more links than lines |
| Lines.ParseLinksConcat | src/pages/api/coupons/import.ts:38 | parsing keeps line order: the links of `a + '\n' + b` are those of `a`, then those of `b` |
| Lines.ParseJoin | src/pages/api/coupons/import.ts:38 | clean lines joined by newlines parse back to exactly those lines, in order |
| Lines.BlankTextHasNoLinks | src/pages/api/coupons/import.ts:38-42 | a whitespace-only file yields no links, hence the 400 |
| Listing.SortDescending | src/pages/api/coupons/index.ts:20 | `sort({ createdAt: -1 })`: the output is ordered by key, largest first, and is a permutation of the input |
| Listing.NewestFirst | src/pages/api/coupons/index.ts:20 | the GET listing is every stored document, each under its own id, newest `createdAt` first |
| Listing.ListingComplete | src/pages/api/coupons/index.ts:20 | every stored coupon appears in the GET listing |
| ClaimApi.Claim | src/pages/api/coupons/claim.ts:5-59 | the checks run in order: 405 with `Allow: POST`, then 400 for a missing code, 404 for an unknown code, 400 for an already claimed coupon, 400 for an expired one (`expiresAt < now`), and 500 when `save` rejects the document; every refusal leaves the database unchanged; a 200 returns the `claimLink` and claims that one coupon, changing nothing else |
| ClaimApi.ClaimOnce | src/pages/api/coupons/claim.ts:25-27 | after a successful claim, a second claim of the same code is refused with 400 and changes nothing, whoever sends it and whenever |
| ClaimApi.ExpiryBoundary | src/pages/api/coupons/claim.ts:29-32 | a claimable coupon is still claimed at exactly `expiresAt`, and one millisecond later it is refused as expired |
| RedeemApi.Redeem | src/pages/api/coupons/redeem.ts:5-48 | 405, then 400 for a missing code, 404 `Invalid code`, 400 for an already claimed coupon, and 500 when `save` rejects; expiry is never checked; refusals change nothing; a 200 returns `{ claimLink }` and claims that one coupon |
| OneShot.ClaimRedeemAgree | src/pages/api/coupons/redeem.ts:26-44 | on a coupon not yet expired, claim and redeem leave the same database and succeed together |
| OneShot.RedeemIgnoresExpiry | src/pages/api/coupons/redeem.ts:26-44 | an unclaimed coupon past its expiry is refused by claim but still redeemed |
| OneShot.Step | src/pages/api/coupons/redeem.ts:5-48 | one request to either endpoint keeps the database consistent |
| OneShot.Payouts | src/pages/api/coupons/redeem.ts:44 | the definition that `OneShot.AtMostOnce` bounds: how many requests of a sequence, run one after another, returned a link for a given code |
| OneShot.StepMonotone | src/pages/api/coupons/claim.ts:39-46 | no claim or redeem adds or removes a document or changes a code, and a claimed coupon stays claimed |
| OneShot.StepCloses | src/pages/api/coupons/redeem.ts:26-42 | a 200 for a code means that code had an unclaimed coupon before and has none after |
| OneShot.StepKeepsClosed | src/pages/api/coupons/redeem.ts:26-28 | once a code has no unclaimed coupon, no request reopens it |
| OneShot.NoPayoutWhenClosed | src/pages/api/coupons/redeem.ts:26-28 | a code with no unclaimed coupon pays out no link in any later sequence of requests |
| OneShot.AtMostOnce | src/pages/api/coupons/redeem.ts:26-42 | in any sequence of claim and redeem requests, at most one returns a link for a given code: `Payouts` is at most 1 |
| CouponsApi.Coupons | src/pages/api/coupons/index.ts:9-60 | 401 without a session, before the verb is looked at; GET returns the newest-first listing and changes nothing; POST gives 400 without `claimLink`, then 400 when days are missing or below 1; a 201 happens exactly when these pass and the code is free, and it adds exactly one unclaimed document with that code and link, `name` defaulting to `'general'`, creator email or `'admin'`, and expiry at the end of the day `days` days ahead; other verbs give 405 with `Allow: GET, POST` |
| BulkApi.BulkDrafts | src/pages/api/coupons/bulk.ts:34-42 | the i-th `Coupon.create` argument: the i-th code and link, the shared name, the creator and the end-of-day expiry |
| BulkApi.Bulk | src/pages/api/coupons/bulk.ts:8-51 | 405, 401, then 400 when `links` is missing or empty, then 400 for days; refusals change nothing; other collections are never touched and no coupon is lost; a 201 returns one stored row per link, and the collection grows by exactly that many |
| BulkApi.BulkRows | src/pages/api/coupons/bulk.ts:33-46 | the i-th coupon of a 201 is new and has the i-th code and the i-th link, the shared name, the creator, unclaimed fields, `createdAt = now` and the end-of-day expiry |
| BulkApi.BulkSucceeds | src/pages/api/coupons/bulk.ts:33-46 | with non-empty links and codes that are fresh and pairwise distinct, the bulk create returns 201 |
| ExtendApi.Extend | src/pages/api/coupons/extend.ts:7-49 | 405, 401, then 400 when the id is missing or `daysToAdd` is absent or 0, 500 for a malformed id, 404 for an unknown id, and 500 when `save` rejects; refusals change nothing; a 200 happens exactly otherwise, rewrites only that coupon's `expiresAt` to the end of the day `daysToAdd` days from today, and returns the rewritten coupon |
| ExtendApi.ExtendIgnoresOldExpiry | src/pages/api/coupons/extend.ts:33-35 | the new expiry does not depend on the old one |
| ExtendApi.ExtendCanShorten | src/pages/api/coupons/extend.ts:33-38 | extending by one day a coupon that expires later than tomorrow moves its expiry earlier |
| ExtendApi.ExtendKeepsClaim | src/pages/api/coupons/extend.ts:37-39 | `isClaimed`, `claimedAt` and `claimedBy` are untouched, so claimed coupons are extended too |
| DeleteApi.Delete | src/pages/api/coupons/delete.ts:5-28 | no session is required; 405, then 400 without an id, then 500 for a malformed id; for a well-formed id, 200 exactly when the document existed and 404 exactly when it did not; only a 200 changes anything, and it removes exactly that document |
| DeleteApi.DeleteTwice | src/pages/api/coupons/delete.ts:18-24 | deleting the same id again gives 404 and changes nothing |
| Batches.CreateStep | src/pages/api/coupons/bulk.ts:35-43 | one `Coupon.create` of a loop: a refused create marks the batch failed and changes nothing else |
| Batches.CreateEach | src/pages/api/coupons/bulk.ts:33-45 | the `Promise.all` of creates, run one after another, keeps the unique index valid |
| Batches.CreateEachAccounted | src/pages/api/coupons/bulk.ts:33-45 | after the creates, the old documents are kept, every row is stored, the collection grew by exactly the rows, the rows are new and are all the new documents; without a failure there is one row per draft, the i-th holding the i-th draft with its defaults |
| Batches.CreateEachExtends | src/pages/api/coupons/bulk.ts:33-45 | the creates only add documents, one per row, and make at most one row per draft |
| Batches.CreateEachStored | src/pages/api/coupons/bulk.ts:43-46 | every row returned is stored under its id |
| Batches.CreateEachFresh | src/pages/api/coupons/bulk.ts:33-45 | every row's id is new |
| Batches.CreateEachComplete | src/pages/api/coupons/bulk.ts:33-46 | without a failure, the i-th row is the i-th draft with its defaults |
| Batches.CreateEachCodes | src/pages/api/coupons/bulk.ts:33-45 | without a failure, every new document carries the code of one of the drafts |
| Batches.CreateEachLeavesFree | src/pages/api/coupons/bulk.ts:33-45 | a code that was neither stored nor drafted is still free afterwards |
| Batches.CreateEachSucceeds | src/pages/api/coupons/bulk.ts:33-45 | creates of valid drafts with fresh, pairwise distinct codes never fail |
| Batches.InsertStep | src/pages/api/coupons/import.ts:64-65 | one `insertOne` of the import loop: a duplicate code marks the batch failed and changes nothing, and a failed batch takes no more inserts |
| Batches.InsertUntilFailure | src/pages/api/coupons/import.ts:47-66 | the `for` loop of inserts, stopping at the first failure, keeps the unique index valid |
| Batches.InsertUntilFailureSettles | src/pages/api/coupons/import.ts:47-66 | once an insert has failed, later documents change nothing |
| Batches.InsertUntilFailurePrefix | src/pages/api/coupons/import.ts:47-66 | the rows inserted are the first documents, in order; all of them without a failure; otherwise the next document's code was already stored |
| Batches.InsertUntilFailureFresh | src/pages/api/coupons/import.ts:64 | every inserted row has a new id |
| Batches.InsertUntilFailureStores | src/pages/api/coupons/import.ts:64-65 | the inserts keep every old document, store every row, and grow the collection by exactly the rows |
| LinkPool.UnusedIndices | src/pages/api/links/generate-coupons.ts:36 | `find({ isUsed: false })`: the positions of all unused links, in collection order |
| LinkPool.FirstUnused | src/pages/api/links/generate-coupons.ts:36 | `.limit(count)`: the first `min(count, unused)` unused positions, strictly increasing and hence distinct |
| LinkPool.Made | src/pages/api/links/generate-coupons.ts:51-69 | which creates of the fan-out stored their coupon, one flag per picked link |
| LinkPool.MadeAll | src/pages/api/links/generate-coupons.ts:51-69 | without a failure, every create stored its coupon |
| LinkPool.MadeRows | src/pages/api/links/generate-coupons.ts:51-69 | there is exactly one row per stored coupon |
| LinkPool.MarkEach | src/pages/api/links/generate-coupons.ts:62-65 | the pool after marking: it keeps its length |
| LinkPool.MarkEachKeepsOthers | src/pages/api/links/generate-coupons.ts:62-65 | a link that was not picked is unchanged |
| LinkPool.MarkEachMarks | src/pages/api/links/generate-coupons.ts:62-65 | a picked link whose coupon was stored is marked used at `now` |
| LinkPool.MarkEachSkips | src/pages/api/links/generate-coupons.ts:54-65 | a picked link whose create failed is left as it was, since the marking comes after the create |
| LinkPool.MarkEachUsesUp | src/pages/api/links/generate-coupons.ts:62-65 | the unused count drops by exactly the number of stored coupons |
| LinkPool.MarkEachConforms | src/models/StoredLink.ts:3-23 | marking keeps every link valid under its schema |
| GenerateApi.GenerateDrafts | src/pages/api/links/generate-coupons.ts:53-60 | the k-th create argument: the k-th code, the picked link, `name: 'generated'`, the shared expiry and the creator |
| GenerateApi.FanOut | src/pages/api/links/generate-coupons.ts:51-69 | the fan-out keeps the database consistent and every old coupon; each stored coupon uses up exactly one unused link; without a failure there is one row per pick and the unused count drops by the number of picks |
| GenerateApi.FanOutNext | src/pages/api/links/generate-coupons.ts:52-68 | one more picked link: one create step, its outcome, and the pick marked used exactly when the create stored a coupon |
| GenerateApi.CreateForPick | src/pages/api/links/generate-coupons.ts:52-68 | the loop body creates the k-th coupon and marks the k-th link; the fan-out state then covers one more item |
| GenerateApi.CreatePerPick | src/pages/api/links/generate-coupons.ts:51-69 | the loop over the picked links computes exactly the fan-out's batch and pool |
| GenerateApi.GenerateAccepted | src/pages/api/links/generate-coupons.ts:35-75 | with fewer than `count` unused links, 400 with `available`/`requested` and no change; a 201 returns `count` stored coupons and leaves `count` fewer unused links; the raw link records are never touched |
| GenerateApi.RunAccepted | src/pages/api/links/generate-coupons.ts:35-75 | the step-by-step handler gives exactly the outcome above |
| GenerateApi.Generate | src/pages/api/links/generate-coupons.ts:10-83 | 405 with `Allow: POST`, 401, then 400 for `count` and for days, then the shortfall 400, none of which change anything; in every case the unused links plus the coupons are conserved; a 201 returns `count` coupons and uses up `count` links |
| GenerateApi.GenerateSucceeds | src/pages/api/links/generate-coupons.ts:35-75 | an accepted request (`count` and days at least 1) with at least `count` unused links and `count` codes that are neither stored nor repeated gets the 201 |
| GenerateApi.GenerateFailsOnCollision | src/pages/api/links/generate-coupons.ts:51-80 | conversely, a 500 means the request was accepted with enough unused links and one of its codes was already stored or repeated an earlier one |
| GenerateApi.GenerateRows | src/pages/api/links/generate-coupons.ts:51-60 | the k-th coupon of a 201 comes from the k-th distinct, previously unused link: that link, the k-th code, `'generated'`, unclaimed, the shared end-of-day expiry and the creator |
| GenerateApi.FanOutMarks | src/pages/api/links/generate-coupons.ts:62-65 | without a failure, every picked link is marked used at `now`, and every other link is unchanged |
| GenerateApi.GenerateMarks | src/pages/api/links/generate-coupons.ts:62-65 | after a 201, exactly the picked links are marked used at `now` |
| LinkRecords.NewRecords | src/pages/api/links/import.ts:34-46 | one record per URL, in order and as given: the URL, the session's user id, `usedInCoupon: false`, and the creation and update time |
| LinkRecords.AvailableAtMostTotal | src/pages/api/links/stats.ts:26-34 | a user's available records never outnumber the user's records |
| LinkRecords.UsedIsRest | src/pages/api/analytics/stats.ts:24-33 | `total - available` is exactly the number of the user's records marked used |
| LinkRecords.RecentAtMostTotal | src/pages/api/analytics/stats.ts:61-64 | recent imports never outnumber the user's records |
| LinkRecords.ImportAddsToCounts | src/pages/api/links/import.ts:50-58 | appending the new records raises the user's total and available counts by the number of URLs, and leaves other users' counts unchanged |
| LinkRecords.Owned | src/pages/api/links/stats.ts:39-42 | `find({ userId })`: exactly the user's records, all taken from the collection |
| LinkRecords.Sample | src/pages/api/links/stats.ts:39-42 | `.limit(5)`: `min(5, total)` of the user's records, all taken from the collection |
| LinksImportApi.ImportLinks | src/pages/api/links/import.ts:6-73 | 405, 401, then 400 when `links` is missing or empty; refusals change nothing; a 200 happens exactly otherwise, appends exactly the new records and nothing else, and reports `count`, a total and an available that each grew by the number of URLs, with available at most total |
| CouponsImportApi.ImportDocs | src/pages/api/coupons/import.ts:47-62 | the k-th raw document: the k-th random code and link, `name` defaulting to `''`, unclaimed, created now, expiring `days` days later at the same time of day, with the session's email, absent when there is none |
| CouponsImportApi.ImportCoupons | src/pages/api/coupons/import.ts:16-73 | 405, 401, 400 without a file, 400 when no line survives parsing; refusals change nothing; other collections are never touched and no coupon is lost; a 200 returns one stored document per parsed link, in order, and the collection grows by exactly that many |
| CouponsImportApi.ImportStopsAtDuplicate | src/pages/api/coupons/import.ts:64-72 | a 500 after parsing means the first document not inserted has a code already stored, and the documents inserted before it remain |
| CouponsImportApi.ImportDefaultExpiry | src/pages/api/coupons/import.ts:30-31 | without `daysUntilExpiry`, every coupon a 200 imports expires exactly two days after the request, on day `Day(now) + 2` |
| AnalyticsApi.Stats | src/pages/api/analytics/stats.ts:23-75 | available links are at most total links, and used links are exactly the user's consumed records; claimed + active + expired = total coupons; the seven-day counts never exceed the totals they narrow |
| AnalyticsApi.AnalyticsStats | src/pages/api/analytics/stats.ts:6-99 | 405 for any verb but GET, then 401; a 200 happens exactly for a GET with a session, and its report partitions the coupons and counts used links exactly; it returns no new state |
| AnalyticsApi.ExpiredYetClaimable | src/pages/api/analytics/stats.ts:51-55 | an unclaimed coupon whose expiry is exactly now is counted as expired and not active, yet a claim at that instant succeeds |
| LinkStatsApi.LinkStats | src/pages/api/links/stats.ts:6-64 | 405 for any verb but GET, then 401; a 200 happens exactly for a GET with a session; it echoes the user id, and available ≤ total, with total − available equal to the user's used records; the sample is `min(5, total)` of the user's own records; it returns no new state |
| LinkStatsApi.StatsAgree | src/pages/api/links/stats.ts:26-34 | the link statistics agree with the analytics report on total, available and used |
| LinkStatsApi.ImportShowsInStats | src/pages/api/links/stats.ts:26-34 | after an import, the statistics show total and available grown by the number of URLs, matching the counts the import returned |
| Server.Store.constructor | src/models/Coupon.ts:46 | an empty database, consistent |
| Server.Store.Claim | src/pages/api/coupons/claim.ts:5-59 | sets the loaded coupon's `isClaimed`, `claimedAt` and `claimedBy` in place and saves it; the new state and the response are exactly those of `ClaimApi.Claim` |
| Server.Store.Redeem | src/pages/api/coupons/redeem.ts:5-48 | the same field updates; state and response are exactly those of `RedeemApi.Redeem` |
| Server.Store.Extend | src/pages/api/coupons/extend.ts:7-49 | assigns `expiresAt` on the loaded coupon and saves it; state and response are exactly those of `ExtendApi.Extend` |
| Server.Store.Delete | src/pages/api/coupons/delete.ts:5-28 | removes the document from the field; state and response are exactly those of `DeleteApi.Delete` |
| Server.Store.Coupons | src/pages/api/coupons/index.ts:9-60 | state and response are exactly those of `CouponsApi.Coupons` |
| Server.Store.CreateOne | src/pages/api/coupons/index.ts:39-45 | one `Coupon.create` on the collection field: it returns the new row exactly when the create succeeded, and that row is the stored document |
| Server.Store.InsertOne | src/pages/api/coupons/import.ts:64 | one `insertOne` on the collection field, as `CouponTable.Insert` |
| Server.Store.CreatePerLink | src/pages/api/coupons/bulk.ts:33-45 | the loop of creates over the links leaves exactly the table, rows and failure of `Batches.CreateEach` on the bulk drafts, and touches no other collection |
| Server.Store.Bulk | src/pages/api/coupons/bulk.ts:8-51 | state and response are exactly those of `BulkApi.Bulk` |
| Server.Store.Generate | src/pages/api/links/generate-coupons.ts:10-83 | state and response are exactly those of `GenerateApi.Generate` |
| Server.Store.ImportLinks | src/pages/api/links/import.ts:6-73 | appends one record per URL to the field in a loop, then counts; state and response are exactly those of `LinksImportApi.ImportLinks` |
| Server.Store.InsertPerLink | src/pages/api/coupons/import.ts:45-66 | the insert loop leaves exactly the table, rows and failure of `Batches.InsertUntilFailure` on the import documents, stopping at the first failed insert |
| Server.Store.ImportCoupons | src/pages/api/coupons/import.ts:16-73 | state and response are exactly those of `CouponsImportApi.ImportCoupons` |

## Left out

- Concurrency. The `Promise.all` fan-outs of `bulk`, `generate-coupons` and `links/import` run their items one after another, in request order. The check-then-write races of claim, redeem and generate are not modelled. The at-most-once result holds for sequential requests only.
- Failures of the database itself (connection errors, timeouts) are left out. The 500 paths that are modelled are the ones that follow from the coupon data: a coupon failing its schema on `Coupon.create` or `save`, a duplicate code, or a malformed id. The `save` of a marked pool link never fails in the model (next line).
- GenerateApi.Generate: assumes every link in the pool passes the `StoredLink` schema (part of `Db.Consistent`). No handler here creates pool links, so the source does not guarantee this. A pool document without `createdBy` would make `storedLink.save()` reject after its coupon was stored, answering 500 and leaving the link unused, so a later request could make a second coupon from it. The model does not represent that path, and its conservation of unused links plus coupons relies on the assumption.
- The `details` text of the 500 responses is left out: it echoes the thrown error's message.
- The `updatedAt` timestamp that `timestamps: true` maintains is left out.
- Each request reads the clock once: every `new Date()` of a handler is the same `now`. This affects the two `new Date()` of the analytics active/expired counts and the per-item `new Date()` of the loops.
- Time zones, daylight saving and `Date` overflow are left out: every day is 86 400 000 ms.
- `parseInt` of strings and comparisons of non-numeric request values are left out. Numeric inputs are `Option<int>`.
- Every handler takes its collection of links as a list of strings; other JSON element types are left out.
- next-auth internals are left out. The session is an optional parameter with an optional user id and email. A session without `user`, which makes `links/import` and the statistics throw, is treated as a user with no id.
- `ObjectId` generation is a counter. `ObjectId` parsing is the three-way `IdParam`: no id, a malformed id, or a well-formed one.
- The `formidable` multipart parsing and `fs.readFile` of `coupons/import` are left out. The file is its text, or absent.
- The order of `find(...).limit(n)` is the collection's insertion order. MongoDB's natural order is not otherwise specified.
- The `source: 'added'` field of `bulk` is left out. It is not a schema path, so Mongoose never stores it.
- The debug `console.log` and `console.error` calls are left out.
- `Server.Store.Generate` runs its loop (`GenerateApi.CreatePerPick`) on local copies of the two collections, then assigns the fields once. The source saves each marked link as it goes. The same in-place write of each document is likewise a field assignment per item only in `CreatePerLink`, `InsertPerLink` and `ImportLinks`.
- LinkRecords.Sample: returns the first records of the user in collection order. The model claims only the count and that every record is the user's own, not which records are chosen.
- AnalyticsApi.AnalyticsStats: its contract states the partition and the used-links identity. The bounds on the seven-day counts are stated on `AnalyticsApi.Stats`, which computes the report.

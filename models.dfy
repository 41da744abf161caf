/**
 * The two Mongoose schemas: `Coupon` (src/models/Coupon.ts) and
 * `StoredLink` (src/models/StoredLink.ts), their defaults and the
 * required-path validation that `create` and `save` run.
 */
module Models {
  import opened Wrappers
  import opened Clock

  /** `claimedBy`: what the claiming request said about itself. */
  datatype Requester = Requester(ip: string, userAgent: string)

  /** A document of the `coupons` collection. A null field is `None`. */
  datatype Coupon = Coupon(
    code: string,
    claimLink: string,
    name: string,
    isClaimed: bool,
    claimedAt: Option<Time>,
    claimedBy: Option<Requester>,
    createdAt: Time,
    expiresAt: Time,
    createdBy: Option<string>)

  /** The object handed to `Coupon.create`; a field left out is `None`. */
  datatype CouponFields = CouponFields(
    code: Option<string>,
    claimLink: Option<string>,
    name: Option<string>,
    expiresAt: Option<Time>,
    createdBy: Option<string>)

  /** The claim fields as the schema defaults leave them. */
  predicate Unclaimed(c: Coupon) {
    !c.isClaimed && c.claimedAt.None? && c.claimedBy.None?
  }

  /**
   * Mongoose's `required` on a String path rejects a missing value and the
   * empty string; `save` re-checks every required path of the document.
   */
  predicate Conforms(c: Coupon) {
    c.code != "" && c.claimLink != "" && Given(c.createdBy)
  }

  /** Two documents agree on every field a claim does not write. */
  predicate SameExceptClaim(a: Coupon, b: Coupon) {
    a.code == b.code && a.claimLink == b.claimLink && a.name == b.name
    && a.createdAt == b.createdAt && a.expiresAt == b.expiresAt && a.createdBy == b.createdBy
  }

  /**
   * `Coupon.create` up to the unique index: validation of the required
   * paths `code`, `claimLink`, `expiresAt`, `createdBy`, then the defaults
   * (`name` 'general', unclaimed, `createdAt` the creation instant).
   */
  function NewCoupon(f: CouponFields, now: Time): (r: Option<Coupon>)
    ensures r.Some? <==> Given(f.code) && Given(f.claimLink) && f.expiresAt.Some? && Given(f.createdBy)
    ensures r.Some? ==> Conforms(r.value) && Unclaimed(r.value)
    ensures r.Some? ==> r.value.code == f.code.value && r.value.claimLink == f.claimLink.value
    ensures r.Some? ==> r.value.expiresAt == f.expiresAt.value && r.value.createdBy == f.createdBy
    ensures r.Some? ==> r.value.name == (if f.name.Some? then f.name.value else "general")
    ensures r.Some? ==> r.value.createdAt == now
  {
    if Given(f.code) && Given(f.claimLink) && f.expiresAt.Some? && Given(f.createdBy) then
      Some(Coupon(
        code := f.code.value,
        claimLink := f.claimLink.value,
        name := if f.name.Some? then f.name.value else "general",
        isClaimed := false,
        claimedAt := None,
        claimedBy := None,
        createdAt := now,
        expiresAt := f.expiresAt.value,
        createdBy := f.createdBy))
    else
      None
  }

  /**
   * The claim transition on one document (`isClaimed = true`,
   * `claimedAt = now`, `claimedBy = {ip, userAgent}`): every other field
   * is left as it was.
   */
  function MarkClaimed(c: Coupon, who: Requester, now: Time): (r: Coupon)
    ensures r.isClaimed && r.claimedAt == Some(now) && r.claimedBy == Some(who)
    ensures SameExceptClaim(r, c)
    ensures Conforms(r) <==> Conforms(c)
  {
    c.(isClaimed := true, claimedAt := Some(now), claimedBy := Some(who))
  }

  /** A document of the `StoredLink` model's collection. */
  datatype StoredLink = StoredLink(
    link: string,
    isUsed: bool,
    usedAt: Option<Time>,
    createdAt: Time,
    createdBy: string)

  /** The schema's required String paths hold non-empty strings. */
  predicate LinkConforms(l: StoredLink) {
    l.link != "" && l.createdBy != ""
  }

  /**
   * `StoredLink.create`: `link` and `createdBy` are required; a new link is
   * unused, has no `usedAt` and was created now.
   */
  function NewStoredLink(link: Option<string>, createdBy: Option<string>, now: Time): (r: Option<StoredLink>)
    ensures r.Some? <==> Given(link) && Given(createdBy)
    ensures r.Some? ==> LinkConforms(r.value) && !r.value.isUsed && r.value.usedAt.None?
    ensures r.Some? ==> r.value.link == link.value && r.value.createdBy == createdBy.value && r.value.createdAt == now
  {
    if Given(link) && Given(createdBy) then
      Some(StoredLink(link.value, false, None, now, createdBy.value))
    else
      None
  }

  /** Consuming a stored link: `isUsed = true`, `usedAt = now`, the rest unchanged. */
  function MarkUsed(l: StoredLink, now: Time): (r: StoredLink)
    ensures r.isUsed && r.usedAt == Some(now)
    ensures r.link == l.link && r.createdAt == l.createdAt && r.createdBy == l.createdBy
    ensures LinkConforms(r) <==> LinkConforms(l)
  {
    l.(isUsed := true, usedAt := Some(now))
  }
}

/**
 * The database the handlers share: the `coupons` collection, the
 * collection of the `StoredLink` model and the raw `storedLinks`
 * collection that the link import writes.
 */
module Db {
  import opened Models
  import opened CouponTable
  import opened Http
  import opened LinkRecords

  datatype State = State(coupons: Table, storedLinks: seq<StoredLink>, linkRecords: seq<LinkRecord>)

  /** The unique index is intact and every `StoredLink` passed its schema. */
  ghost predicate Consistent(s: State) {
    CouponTable.Valid(s.coupons) && forall i | 0 <= i < |s.storedLinks| :: LinkConforms(s.storedLinks[i])
  }

  /** What a handler leaves behind: the new database and the response it sent. */
  datatype Outcome = Outcome(state: State, response: Response)
}

/**
 * The request and response vocabulary shared by the API route handlers:
 * the HTTP method, the next-auth session, the id parameter and the JSON
 * bodies the handlers send.
 */
module Http {
  import opened Wrappers
  import opened Models
  import opened CouponTable
  import opened LinkRecords

  datatype Verb = Get | Post | Put | Patch | Delete | Head | Options

  function VerbName(v: Verb): string {
    match v
    case Get => "GET"
    case Post => "POST"
    case Put => "PUT"
    case Patch => "PATCH"
    case Delete => "DELETE"
    case Head => "HEAD"
    case Options => "OPTIONS"
  }

  /** The signed-in user as next-auth reports it; a missing field is `None`. */
  datatype Session = Session(userId: Option<string>, email: Option<string>)

  /** `session.user?.email || 'admin'`: the creator recorded on new coupons. */
  function CreatorOf(s: Session): (who: string)
    ensures who != ""
    ensures Given(s.email) ==> who == s.email.value
    ensures !Given(s.email) ==> who == "admin"
  {
    OrElse(s.email, "admin")
  }

  /**
   * The `couponId` of a request body: absent or empty (`NoId`), a value
   * that is not a valid ObjectId (`BadId`, the cast or the ObjectId
   * constructor throws) or an ObjectId.
   */
  datatype IdParam = NoId | BadId | ObjId(id: Id)

  /** The JSON counters returned by the analytics endpoint. */
  datatype Report = Report(
    totalLinks: nat, availableLinks: nat, usedLinks: int,
    totalCoupons: nat, claimedCoupons: nat, activeCoupons: nat, expiredCoupons: nat,
    recentImports: nat, recentGenerated: nat, recentClaims: nat)

  datatype Body =
    | Text(text: string)                                  // `res.end(...)`
    | Error(error: string)                                // `{ error }`
    | Shortfall(error: string, available: nat, requested: int)
    | Claimed(message: string, claimLink: string)
    | LinkOnly(claimLink: string)
    | CouponList(rows: seq<Row>)
    | OneCoupon(row: Row)
    | Extended(message: string, row: Row)
    | Deleted                                             // `{ success: true }`
    | Generated(message: string, count: nat, rows: seq<Row>)
    | LinksImported(count: nat, total: nat, available: nat, message: string)
    | CouponsImported(count: nat, rows: seq<Row>)
    | LinkCounts(total: nat, available: nat, userId: Option<string>, sample: seq<LinkRecord>)
    | Analytics(report: Report)

  /** A response: status code, the `Allow` header (empty when not set) and the body. */
  datatype Response = Response(status: nat, allow: seq<Verb>, body: Body)

  /** `res.status(405).end(`Method ${req.method} Not Allowed`)` with an `Allow` header. */
  function NotAllowedText(v: Verb, allow: seq<Verb>): Response {
    Response(405, allow, Text("Method " + VerbName(v) + " Not Allowed"))
  }

  /** `res.status(405).json({ error: 'Method not allowed' })`. */
  const NotAllowedJson: Response := Response(405, [], Error("Method not allowed"))

  const Unauthorized: Response := Response(401, [], Error("Unauthorized"))

  /** `res.status(status).json({ error })`. */
  function Fail(status: nat, error: string): Response {
    Response(status, [], Error(error))
  }
}

/**
 * The `coupons` collection as an in-memory table: documents by id, plus
 * the unique index on `code` that the schema declares.
 */
module CouponTable {
  import opened Wrappers
  import opened Models
  import opened Clock

  type Id = nat

  /** A stored document together with its `_id`. */
  type Row = (Id, Coupon)

  /**
   * `byId` holds the documents, `byCode` is the unique index from `code`
   * to id, `nextId` the id the next insert receives.
   */
  datatype Table = Table(byId: map<Id, Coupon>, byCode: map<string, Id>, nextId: Id)

  const Empty: Table := Table(map[], map[], 0)

  /** The index agrees with the documents and every id is below `nextId`. */
  ghost predicate Valid(t: Table) {
    && (forall id | id in t.byId :: id < t.nextId)
    && (forall id | id in t.byId :: t.byId[id].code in t.byCode && t.byCode[t.byId[id].code] == id)
    && (forall code | code in t.byCode :: t.byCode[code] in t.byId && t.byId[t.byCode[code]].code == code)
  }

  lemma EmptyValid()
    ensures Valid(Empty) && |Empty.byId| == 0
  {
  }

  /** The unique index at work: no two documents share a code. */
  lemma CodesUnique(t: Table, i: Id, j: Id)
    requires Valid(t) && i in t.byId && j in t.byId && i != j
    ensures t.byId[i].code != t.byId[j].code
  {
  }

  /** `findOne({ code })`. */
  function Lookup(t: Table, code: string): (r: Option<Id>)
    requires Valid(t)
    ensures r.Some? ==> r.value in t.byId && t.byId[r.value].code == code
    ensures r.None? ==> forall id | id in t.byId :: t.byId[id].code != code
  {
    if code in t.byCode then Some(t.byCode[code]) else None
  }

  /**
   * `insertOne`: refused (duplicate key) exactly when some document already
   * has the code; otherwise the document is stored under a fresh id.
   */
  function Insert(t: Table, c: Coupon): (r: (Table, Option<Id>))
    requires Valid(t)
    ensures Valid(r.0)
    ensures r.1.Some? <==> forall id | id in t.byId :: t.byId[id].code != c.code
    ensures r.1.None? ==> r.0 == t
    ensures r.1.Some? ==> r.1.value !in t.byId && r.0.byId == t.byId[r.1.value := c]
    ensures r.1.Some? ==> |r.0.byId| == |t.byId| + 1
  {
    if c.code in t.byCode then
      (t, None)
    else
      var id := t.nextId;
      (Table(t.byId[id := c], t.byCode[c.code := id], id + 1), Some(id))
  }

  /**
   * `Coupon.create(fields)`: the schema's validation (`NewCoupon`), then the
   * unique index; when either refuses, nothing is stored.
   */
  function Create(t: Table, f: CouponFields, now: Time): (r: (Table, Option<Id>))
    requires Valid(t)
    ensures Valid(r.0)
    ensures r.1.Some? <==> NewCoupon(f, now).Some? && forall id | id in t.byId :: t.byId[id].code != f.code.value
    ensures r.1.None? ==> r.0 == t
    ensures r.1.Some? ==> r.1.value !in t.byId && r.0.byId == t.byId[r.1.value := NewCoupon(f, now).value]
  {
    match NewCoupon(f, now)
    case None => (t, None)
    case Some(c) => Insert(t, c)
  }

  /** `save` of a loaded document whose code is unchanged: only that document changes. */
  function Update(t: Table, id: Id, c: Coupon): (r: Table)
    requires Valid(t) && id in t.byId && c.code == t.byId[id].code
    ensures Valid(r)
    ensures r.byId == t.byId[id := c]
    ensures |r.byId| == |t.byId|
  {
    t.(byId := t.byId[id := c])
  }

  /** `deleteOne({ _id })`: reports whether a document was removed. */
  function Remove(t: Table, id: Id): (r: (Table, bool))
    requires Valid(t)
    ensures Valid(r.0)
    ensures r.1 <==> id in t.byId
    ensures r.0.byId == t.byId - {id}
    ensures r.1 ==> |r.0.byId| == |t.byId| - 1
    ensures !r.1 ==> r.0 == t
  {
    if id in t.byId then
      (Table(t.byId - {id}, t.byCode - {t.byId[id].code}, t.nextId), true)
    else
      (t, false)
  }

  /**
   * The documents with an id below `n`, in id order: each row is a stored
   * document and ids strictly increase (`RowsBelowComplete`: none is missing).
   */
  function RowsBelow(t: Table, n: nat): (rows: seq<Row>)
    ensures forall i | 0 <= i < |rows| :: rows[i].0 < n && rows[i].0 in t.byId && t.byId[rows[i].0] == rows[i].1
    ensures forall i, j | 0 <= i < j < |rows| :: rows[i].0 < rows[j].0
  {
    if n == 0 then []
    else if n - 1 in t.byId then RowsBelow(t, n - 1) + [(n - 1, t.byId[n - 1])]
    else RowsBelow(t, n - 1)
  }

  lemma {:induction false} RowsBelowComplete(t: Table, n: nat, id: Id)
    requires id in t.byId && id < n
    ensures exists i | 0 <= i < |RowsBelow(t, n)| :: RowsBelow(t, n)[i] == (id, t.byId[id])
  {
    var rows := RowsBelow(t, n);
    if id == n - 1 {
      assert rows[|rows| - 1] == (id, t.byId[id]);
    } else {
      RowsBelowComplete(t, n - 1, id);
      var before := RowsBelow(t, n - 1);
      var i :| 0 <= i < |before| && before[i] == (id, t.byId[id]);
      assert rows[i] == before[i];
    }
  }

  /** `find()`: the documents of the collection in insertion (id) order. */
  function Rows(t: Table): (rows: seq<Row>)
    requires Valid(t)
    ensures forall i | 0 <= i < |rows| :: rows[i].0 in t.byId && t.byId[rows[i].0] == rows[i].1
    ensures forall i, j | 0 <= i < j < |rows| :: rows[i].0 < rows[j].0
  {
    RowsBelow(t, t.nextId)
  }

  /** Every document of the collection is among `Rows`. */
  lemma RowsComplete(t: Table, id: Id)
    requires Valid(t) && id in t.byId
    ensures exists i | 0 <= i < |Rows(t)| :: Rows(t)[i] == (id, t.byId[id])
  {
    RowsBelowComplete(t, t.nextId, id);
    assert Rows(t) == RowsBelow(t, t.nextId);
  }
}

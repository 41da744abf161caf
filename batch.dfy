/**
 * Creating several coupons in one request. `CreateEach` is the fan-out of
 * `Coupon.create` over a list (every create is attempted, a failed one
 * stores nothing); `InsertUntilFailure` is a loop of raw inserts that
 * stops at the first refused one.
 */
module Batches {
  import opened Wrappers
  import opened Clock
  import opened Models
  import opened CouponTable

  /** The table after the batch, the rows stored (in request order), and whether any item failed. */
  datatype Batch = Batch(table: Table, rows: seq<Row>, failed: bool)

  /** Every document of `t` is still in `u`, unchanged. */
  ghost predicate Extends(t: Table, u: Table) {
    forall id | id in t.byId :: id in u.byId && u.byId[id] == t.byId[id]
  }

  /** Each listed row is stored in the table. */
  ghost predicate Stored(rows: seq<Row>, t: Table) {
    forall i | 0 <= i < |rows| :: rows[i].0 in t.byId && t.byId[rows[i].0] == rows[i].1
  }

  /** `Coupon.create(f)` is refused: validation fails or the code is taken. */
  ghost predicate Refused(t: Table, f: CouponFields, now: Time) {
    NewCoupon(f, now).None? || exists id | id in t.byId :: t.byId[id].code == f.code.value
  }

  /**
   * One step of a batch: the table only gains documents, and either no
   * row is added or one row is appended whose document was stored under
   * a fresh id.
   */
  ghost predicate Grows(b: Batch, c: Batch) {
    && Extends(b.table, c.table)
    && (|| c.rows == b.rows
        || (&& |c.rows| == |b.rows| + 1 && c.rows == b.rows + [c.rows[|b.rows|]]
            && c.rows[|b.rows|].0 !in b.table.byId
            && c.table.byId == b.table.byId[c.rows[|b.rows|].0 := c.rows[|b.rows|].1]))
  }

  lemma GrowsStored(b: Batch, c: Batch)
    requires Grows(b, c) && Stored(b.rows, b.table)
    ensures Stored(c.rows, c.table)
  {
    if c.rows != b.rows {
      forall i | 0 <= i < |c.rows|
        ensures c.rows[i].0 in c.table.byId && c.table.byId[c.rows[i].0] == c.rows[i].1
      {
        if i < |b.rows| {
          assert c.rows[i] == b.rows[i];
        }
      }
    }
  }

  lemma GrowsFresh(t: Table, b: Batch, c: Batch)
    requires Grows(b, c) && Extends(t, b.table)
    requires forall i | 0 <= i < |b.rows| :: b.rows[i].0 !in t.byId
    ensures forall i | 0 <= i < |c.rows| :: c.rows[i].0 !in t.byId
  {
    if c.rows != b.rows {
      forall i | 0 <= i < |c.rows|
        ensures c.rows[i].0 !in t.byId
      {
        if i < |b.rows| {
          assert c.rows[i] == b.rows[i];
        }
      }
    }
  }

  /** One `Coupon.create` of the fan-out: a stored coupon is appended to the rows, a refusal marks the batch failed. */
  function CreateStep(b: Batch, f: CouponFields, now: Time): (c: Batch)
    requires Valid(b.table)
    ensures Valid(c.table)
    ensures c.failed == (b.failed || Refused(b.table, f, now))
    ensures Refused(b.table, f, now) ==> c == b.(failed := true)
  {
    var (u, made) := Create(b.table, f, now);
    match made
    case None => b.(failed := true)
    case Some(id) => Batch(u, b.rows + [(id, NewCoupon(f, now).value)], b.failed)
  }

  /** An accepted create appends one row: the draft with its defaults. */
  lemma CreateStepAppends(b: Batch, f: CouponFields, now: Time)
    requires Valid(b.table) && !Refused(b.table, f, now)
    ensures |CreateStep(b, f, now).rows| == |b.rows| + 1
    ensures forall i | 0 <= i < |b.rows| :: CreateStep(b, f, now).rows[i] == b.rows[i]
    ensures Some(CreateStep(b, f, now).rows[|b.rows|].1) == NewCoupon(f, now)
  {
  }

  /** An accepted create stores the appended row under an id new to the table. */
  lemma CreateStepStores(b: Batch, f: CouponFields, now: Time)
    requires Valid(b.table) && !Refused(b.table, f, now)
    ensures |CreateStep(b, f, now).rows| == |b.rows| + 1
    ensures CreateStep(b, f, now).rows[|b.rows|].0 !in b.table.byId
    ensures CreateStep(b, f, now).table.byId
      == b.table.byId[CreateStep(b, f, now).rows[|b.rows|].0 := CreateStep(b, f, now).rows[|b.rows|].1]
    ensures |CreateStep(b, f, now).table.byId| == |b.table.byId| + 1
  {
  }

  lemma CreateStepGrows(b: Batch, f: CouponFields, now: Time)
    requires Valid(b.table)
    ensures Grows(b, CreateStep(b, f, now))
  {
  }

  /** `Promise.all(drafts.map(d => Coupon.create(d)))`, run one create after another. */
  function CreateEach(t: Table, drafts: seq<CouponFields>, now: Time): (b: Batch)
    requires Valid(t)
    ensures Valid(b.table)
  {
    if drafts == [] then Batch(t, [], false)
    else CreateStep(CreateEach(t, drafts[..|drafts| - 1], now), drafts[|drafts| - 1], now)
  }

  /** The fan-out over one more draft: the fan-out over the earlier ones, then one create step. */
  lemma CreateEachNext(t: Table, drafts: seq<CouponFields>, i: nat, now: Time)
    requires Valid(t) && i < |drafts|
    ensures CreateEach(t, drafts[..i + 1], now) == CreateStep(CreateEach(t, drafts[..i], now), drafts[i], now)
  {
    assert drafts[..i + 1][..i] == drafts[..i];
  }

  /** A create step in the terms of its `Coupon.create` call: the created document is the row appended. */
  lemma CreateStepCreates(b: Batch, f: CouponFields, now: Time)
    requires Valid(b.table)
    ensures Create(b.table, f, now).1.None? ==> CreateStep(b, f, now) == b.(failed := true)
    ensures Create(b.table, f, now).1.Some? ==>
      var (u, made) := Create(b.table, f, now);
      CreateStep(b, f, now) == Batch(u, b.rows + [(made.value, u.byId[made.value])], b.failed)
  {
  }

  lemma ExtendsTrans(t: Table, u: Table, v: Table)
    requires Extends(t, u) && Extends(u, v)
    ensures Extends(t, v)
  {
  }

  /** Rows stored in a table stay stored in any table that extends it. */
  lemma StoredExtends(rows: seq<Row>, t: Table, u: Table)
    requires Stored(rows, t) && Extends(t, u)
    ensures Stored(rows, u)
  {
  }

  /**
   * What a batch run from table `t` has done to the table: it only gained
   * documents, exactly the listed rows, each under an id new to `t`.
   */
  ghost predicate Tracked(t: Table, b: Batch) {
    && Extends(t, b.table)
    && Stored(b.rows, b.table)
    && |b.table.byId| == |t.byId| + |b.rows|
    && (forall i | 0 <= i < |b.rows| :: b.rows[i].0 !in t.byId)
    && (forall id | id in b.table.byId && id !in t.byId :: exists i | 0 <= i < |b.rows| :: b.rows[i].0 == id)
  }

  /** The rows follow the drafts: never more rows than drafts and, unless a create failed, the i-th row holds the i-th draft with its defaults. */
  ghost predicate Matches(drafts: seq<CouponFields>, now: Time, b: Batch) {
    && |b.rows| <= |drafts|
    && (!b.failed ==> |b.rows| == |drafts|)
    && (!b.failed ==> forall i | 0 <= i < |drafts| :: NewCoupon(drafts[i], now) == Some(b.rows[i].1))
  }

  ghost predicate Accounted(t: Table, drafts: seq<CouponFields>, now: Time, b: Batch) {
    Tracked(t, b) && Matches(drafts, now, b)
  }

  /** Every added document of the next step is listed: an old one already was, a new one is the appended row. */
  lemma CreateStepCovers(t: Table, b: Batch, f: CouponFields, now: Time)
    requires Valid(b.table) && !Refused(b.table, f, now)
    requires forall id | id in b.table.byId && id !in t.byId :: exists i | 0 <= i < |b.rows| :: b.rows[i].0 == id
    ensures var c := CreateStep(b, f, now);
      forall id | id in c.table.byId && id !in t.byId :: exists i | 0 <= i < |c.rows| :: c.rows[i].0 == id
  {
    var c := CreateStep(b, f, now);
    CreateStepAppends(b, f, now);
    CreateStepStores(b, f, now);
    forall id | id in c.table.byId && id !in t.byId
      ensures exists i | 0 <= i < |c.rows| :: c.rows[i].0 == id
    {
      if id in b.table.byId {
        var i :| 0 <= i < |b.rows| && b.rows[i].0 == id;
        assert c.rows[i].0 == id;
      } else {
        assert c.rows[|b.rows|].0 == id;
      }
    }
  }

  /** An accepted create after rows that match all but the last draft makes them match all drafts. */
  lemma CreateStepComplete(b: Batch, drafts: seq<CouponFields>, now: Time)
    requires Valid(b.table) && drafts != [] && !b.failed && !Refused(b.table, drafts[|drafts| - 1], now)
    requires |b.rows| == |drafts| - 1
    requires forall i | 0 <= i < |drafts| - 1 :: NewCoupon(drafts[i], now) == Some(b.rows[i].1)
    ensures |CreateStep(b, drafts[|drafts| - 1], now).rows| == |drafts|
    ensures forall i | 0 <= i < |drafts| :: NewCoupon(drafts[i], now) == Some(CreateStep(b, drafts[|drafts| - 1], now).rows[i].1)
  {
    CreateStepAppends(b, drafts[|drafts| - 1], now);
  }

  /** One more create keeps the table changes tracked. */
  lemma CreateStepTracked(t: Table, b: Batch, f: CouponFields, now: Time)
    requires Valid(b.table) && Tracked(t, b)
    ensures Tracked(t, CreateStep(b, f, now))
  {
    var c := CreateStep(b, f, now);
    CreateStepGrows(b, f, now);
    GrowsStored(b, c);
    GrowsFresh(t, b, c);
    ExtendsTrans(t, b.table, c.table);
    if !Refused(b.table, f, now) {
      CreateStepStores(b, f, now);
      CreateStepCovers(t, b, f, now);
    }
  }

  /** One more create keeps the rows following the drafts. */
  lemma CreateStepMatches(drafts: seq<CouponFields>, now: Time, b: Batch)
    requires Valid(b.table) && drafts != [] && Matches(drafts[..|drafts| - 1], now, b)
    ensures Matches(drafts, now, CreateStep(b, drafts[|drafts| - 1], now))
  {
    var f := drafts[|drafts| - 1];
    if !Refused(b.table, f, now) {
      CreateStepAppends(b, f, now);
      if !b.failed {
        assert forall i | 0 <= i < |drafts| - 1 :: drafts[i] == drafts[..|drafts| - 1][i];
        CreateStepComplete(b, drafts, now);
      }
    }
  }

  /** The fan-out is accounted for after every prefix of the drafts. */
  lemma {:induction false} CreateEachAccounted(t: Table, drafts: seq<CouponFields>, now: Time)
    requires Valid(t)
    ensures Accounted(t, drafts, now, CreateEach(t, drafts, now))
  {
    if drafts != [] {
      var n := |drafts| - 1;
      CreateEachAccounted(t, drafts[..n], now);
      CreateStepTracked(t, CreateEach(t, drafts[..n], now), drafts[n], now);
      CreateStepMatches(drafts, now, CreateEach(t, drafts[..n], now));
    }
  }

  /** The batch only adds: old documents stay and the table grows by the rows. */
  lemma CreateEachExtends(t: Table, drafts: seq<CouponFields>, now: Time)
    requires Valid(t)
    ensures var b := CreateEach(t, drafts, now);
      Extends(t, b.table) && |b.table.byId| == |t.byId| + |b.rows| && |b.rows| <= |drafts|
  {
    CreateEachAccounted(t, drafts, now);
  }

  /** Each row the batch reports is stored in the resulting table. */
  lemma CreateEachStored(t: Table, drafts: seq<CouponFields>, now: Time)
    requires Valid(t)
    ensures var b := CreateEach(t, drafts, now); Stored(b.rows, b.table)
  {
    CreateEachAccounted(t, drafts, now);
  }

  /** Every row the batch reports got an id that was not in the table before. */
  lemma CreateEachFresh(t: Table, drafts: seq<CouponFields>, now: Time)
    requires Valid(t)
    ensures forall i | 0 <= i < |CreateEach(t, drafts, now).rows| :: CreateEach(t, drafts, now).rows[i].0 !in t.byId
  {
    CreateEachAccounted(t, drafts, now);
  }

  /** With no failure, the i-th stored coupon is the i-th draft with the schema defaults filled in. */
  lemma CreateEachComplete(t: Table, drafts: seq<CouponFields>, now: Time)
    requires Valid(t)
    ensures !CreateEach(t, drafts, now).failed ==> |CreateEach(t, drafts, now).rows| == |drafts|
    ensures !CreateEach(t, drafts, now).failed ==>
      forall i | 0 <= i < |drafts| :: NewCoupon(drafts[i], now) == Some(CreateEach(t, drafts, now).rows[i].1)
  {
    CreateEachAccounted(t, drafts, now);
  }

  /** Without a failure, every document the batch added carries the code of one of the drafts. */
  lemma CreateEachCodes(t: Table, drafts: seq<CouponFields>, now: Time)
    requires Valid(t) && !CreateEach(t, drafts, now).failed
    ensures forall id | id in CreateEach(t, drafts, now).table.byId && id !in t.byId ::
      exists i | 0 <= i < |drafts| :: drafts[i].code == Some(CreateEach(t, drafts, now).table.byId[id].code)
  {
    var b := CreateEach(t, drafts, now);
    CreateEachAccounted(t, drafts, now);
    forall id | id in b.table.byId && id !in t.byId
      ensures exists i | 0 <= i < |drafts| :: drafts[i].code == Some(b.table.byId[id].code)
    {
      var i :| 0 <= i < |b.rows| && b.rows[i].0 == id;
      assert NewCoupon(drafts[i], now) == Some(b.rows[i].1);
    }
  }

  /**
   * After a batch without failure, a code that none of the drafts and none
   * of the original documents carries is still free.
   */
  lemma CreateEachLeavesFree(t: Table, drafts: seq<CouponFields>, now: Time, code: string)
    requires Valid(t) && !CreateEach(t, drafts, now).failed
    requires forall id | id in t.byId :: t.byId[id].code != code
    requires forall i | 0 <= i < |drafts| :: drafts[i].code != Some(code)
    ensures forall id | id in CreateEach(t, drafts, now).table.byId :: CreateEach(t, drafts, now).table.byId[id].code != code
  {
    var b := CreateEach(t, drafts, now);
    CreateEachCodes(t, drafts, now);
    CreateEachExtends(t, drafts, now);
    forall id | id in b.table.byId
      ensures b.table.byId[id].code != code
    {
      if id !in t.byId {
        var i :| 0 <= i < |drafts| && drafts[i].code == Some(b.table.byId[id].code);
      }
    }
  }

  /** After a prefix without failure, a valid last draft whose code is new to the table and to the prefix is stored too. */
  lemma CreateEachSucceedsStep(t: Table, drafts: seq<CouponFields>, now: Time)
    requires Valid(t) && drafts != []
    requires !CreateEach(t, drafts[..|drafts| - 1], now).failed
    requires NewCoupon(drafts[|drafts| - 1], now).Some?
    requires forall id | id in t.byId :: drafts[|drafts| - 1].code != Some(t.byId[id].code)
    requires forall i | 0 <= i < |drafts| - 1 :: drafts[i].code != drafts[|drafts| - 1].code
    ensures !CreateEach(t, drafts, now).failed
  {
    var n := |drafts| - 1;
    var pre := drafts[..n];
    assert forall i | 0 <= i < |pre| :: pre[i] == drafts[i];
    CreateEachLeavesFree(t, pre, now, drafts[n].code.value);
    assert !Refused(CreateEach(t, pre, now).table, drafts[n], now);
  }

  /** Drafts that all validate, with codes new to the table and distinct from each other, all get stored. */
  lemma {:induction false} CreateEachSucceeds(t: Table, drafts: seq<CouponFields>, now: Time)
    requires Valid(t)
    requires forall i | 0 <= i < |drafts| :: NewCoupon(drafts[i], now).Some?
    requires forall i, id | 0 <= i < |drafts| && id in t.byId :: drafts[i].code != Some(t.byId[id].code)
    requires forall i, j | 0 <= i < j < |drafts| :: drafts[i].code != drafts[j].code
    ensures !CreateEach(t, drafts, now).failed
  {
    if drafts != [] {
      var n := |drafts| - 1;
      var pre := drafts[..n];
      assert forall i | 0 <= i < n :: pre[i] == drafts[i];
      CreateEachSucceeds(t, pre, now);
      CreateEachSucceedsStep(t, drafts, now);
    }
  }

  /** Some document of the table already has the code. */
  ghost predicate Taken(t: Table, code: string) {
    exists id | id in t.byId :: t.byId[id].code == code
  }

  /** One raw `insertOne` of a loop that has not failed yet; once failed, nothing more is inserted. */
  function InsertStep(b: Batch, doc: Coupon): (c: Batch)
    requires Valid(b.table)
    ensures Valid(c.table)
    ensures c.failed == (b.failed || Taken(b.table, doc.code))
    ensures b.failed ==> c == b
    ensures !b.failed && Taken(b.table, doc.code) ==> c == b.(failed := true)
  {
    if b.failed then b
    else
      var (u, made) := Insert(b.table, doc);
      match made
      case None => b.(failed := true)
      case Some(id) => Batch(u, b.rows + [(id, doc)], false)
  }

  /** An accepted insert appends the document under an id new to the table. */
  lemma InsertStepAppends(b: Batch, doc: Coupon)
    requires Valid(b.table) && !b.failed && !Taken(b.table, doc.code)
    ensures |InsertStep(b, doc).rows| == |b.rows| + 1
    ensures forall i | 0 <= i < |b.rows| :: InsertStep(b, doc).rows[i] == b.rows[i]
    ensures InsertStep(b, doc).rows[|b.rows|].1 == doc
  {
  }

  /** An insert step grows the batch. */
  lemma InsertStepGrows(b: Batch, doc: Coupon)
    requires Valid(b.table)
    ensures Grows(b, InsertStep(b, doc))
  {
  }

  /** `for (const doc of docs) await insertOne(doc)`: a throw ends the loop. */
  function InsertUntilFailure(t: Table, docs: seq<Coupon>): (b: Batch)
    requires Valid(t)
    ensures Valid(b.table)
  {
    if docs == [] then Batch(t, [], false)
    else InsertStep(InsertUntilFailure(t, docs[..|docs| - 1]), docs[|docs| - 1])
  }

  /** An insert step of a loop that has not failed, in the terms of its `insertOne` call. */
  lemma InsertStepInserts(b: Batch, doc: Coupon)
    requires Valid(b.table) && !b.failed
    ensures Insert(b.table, doc).1.None? ==> InsertStep(b, doc) == b.(failed := true)
    ensures Insert(b.table, doc).1.Some? ==>
      InsertStep(b, doc) == Batch(Insert(b.table, doc).0, b.rows + [(Insert(b.table, doc).1.value, doc)], false)
  {
  }

  /** The loop over one more document: the loop over the others, then one step. */
  lemma InsertUntilFailureLast(t: Table, docs: seq<Coupon>)
    requires Valid(t) && docs != []
    ensures InsertUntilFailure(t, docs) == InsertStep(InsertUntilFailure(t, docs[..|docs| - 1]), docs[|docs| - 1])
  {
  }

  /** Once an insert has failed, the remaining documents change nothing. */
  lemma {:induction false} InsertUntilFailureSettles(t: Table, docs: seq<Coupon>, n: nat)
    requires Valid(t) && n <= |docs| && InsertUntilFailure(t, docs[..n]).failed
    ensures InsertUntilFailure(t, docs) == InsertUntilFailure(t, docs[..n])
    decreases |docs| - n
  {
    if n == |docs| {
      assert docs[..n] == docs;
    } else {
      var m := |docs| - 1;
      assert docs[..m][..n] == docs[..n];
      InsertUntilFailureSettles(t, docs[..m], n);
      var b := InsertUntilFailure(t, docs[..m]);
      assert b.failed;
      InsertUntilFailureLast(t, docs);
      assert InsertStep(b, docs[m]) == b;
    }
  }

  /** The loop after `k` documents takes one insert step for the next. */
  lemma InsertUntilFailureNext(t: Table, docs: seq<Coupon>, k: nat)
    requires Valid(t) && k < |docs|
    ensures InsertUntilFailure(t, docs[..k + 1]) == InsertStep(InsertUntilFailure(t, docs[..k]), docs[k])
  {
    var pre := docs[..k + 1];
    assert |pre| - 1 == k && pre[..k] == docs[..k] && pre[k] == docs[k];
    InsertUntilFailureLast(t, pre);
  }

  /**
   * The rows follow the documents: the i-th row holds the i-th document;
   * without a failure every document has its row, and a failure stops
   * right after the rows, at a document whose code was already taken.
   */
  ghost predicate Follows(docs: seq<Coupon>, b: Batch) {
    && |b.rows| <= |docs|
    && (forall i | 0 <= i < |b.rows| :: b.rows[i].1 == docs[i])
    && (!b.failed ==> |b.rows| == |docs|)
    && (b.failed ==> |b.rows| < |docs| && Taken(b.table, docs[|b.rows|].code))
  }

  /** One more insert step keeps the rows following the documents. */
  lemma InsertStepFollows(docs: seq<Coupon>, b: Batch)
    requires Valid(b.table) && docs != [] && Follows(docs[..|docs| - 1], b)
    ensures Follows(docs, InsertStep(b, docs[|docs| - 1]))
  {
    var n := |docs| - 1;
    assert forall i | 0 <= i < n :: docs[..n][i] == docs[i];
    if !b.failed && !Taken(b.table, docs[n].code) {
      InsertStepAppends(b, docs[n]);
    }
  }

  /**
   * The loop stores the documents of a prefix of `docs`, in order; it
   * stops only on a document whose code was already taken, right after
   * that prefix.
   */
  lemma {:induction false} InsertUntilFailurePrefix(t: Table, docs: seq<Coupon>)
    requires Valid(t)
    ensures Follows(docs, InsertUntilFailure(t, docs))
  {
    if docs != [] {
      var n := |docs| - 1;
      InsertUntilFailurePrefix(t, docs[..n]);
      InsertStepFollows(docs, InsertUntilFailure(t, docs[..n]));
    }
  }

  /** Every row the loop reports got an id that was not in the table before. */
  lemma {:induction false} InsertUntilFailureFresh(t: Table, docs: seq<Coupon>)
    requires Valid(t)
    ensures forall i | 0 <= i < |InsertUntilFailure(t, docs).rows| :: InsertUntilFailure(t, docs).rows[i].0 !in t.byId
  {
    if docs != [] {
      var n := |docs| - 1;
      InsertUntilFailureFresh(t, docs[..n]);
      InsertUntilFailureStores(t, docs[..n]);
      var b := InsertUntilFailure(t, docs[..n]);
      InsertStepGrows(b, docs[n]);
      GrowsFresh(t, b, InsertStep(b, docs[n]));
    }
  }

  /** The loop only adds: old documents stay, each row is stored, the table grows by the rows. */
  lemma {:induction false} InsertUntilFailureStores(t: Table, docs: seq<Coupon>)
    requires Valid(t)
    ensures var b := InsertUntilFailure(t, docs);
      Extends(t, b.table) && Stored(b.rows, b.table) && |b.table.byId| == |t.byId| + |b.rows|
  {
    if docs != [] {
      var n := |docs| - 1;
      InsertUntilFailureStores(t, docs[..n]);
      var b := InsertUntilFailure(t, docs[..n]);
      var c := InsertStep(b, docs[n]);
      InsertStepGrows(b, docs[n]);
      ExtendsTrans(t, b.table, c.table);
      GrowsStored(b, c);
    }
  }
}

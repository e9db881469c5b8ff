/**
 The local detection ledger (`DatabaseService`) as an abstract state machine: the
 `detections` table is a map from AUTOINCREMENT id to a row, plus the largest id ever
 issued (SQLite's `sqlite_sequence` entry). The connection, the lock and durability are
 not modelled.
 */
module Ledger {
  import opened Optional

  /** One stored row; SQL NULL is `None`, NOT NULL columns are plain values. */
  datatype Row = Row(
    cameraId: string,
    roadClass: string,
    confidence: real,
    widthCm: Option<real>,
    depthCm: Option<real>,
    bboxX1: Option<real>,
    bboxY1: Option<real>,
    bboxX2: Option<real>,
    bboxY2: Option<real>,
    latitude: Option<real>,
    longitude: Option<real>,
    imagePath: Option<string>,
    timestamp: string,
    synced: int)

  /**
   The dictionary handed to `insert_detection`: columns it leaves out are NULL, except
   `timestamp` and `synced`, whose omission selects the column default.
   */
  datatype NewRow = NewRow(
    cameraId: string,
    roadClass: string,
    confidence: real,
    widthCm: Option<real>,
    depthCm: Option<real>,
    bboxX1: Option<real>,
    bboxY1: Option<real>,
    bboxX2: Option<real>,
    bboxY2: Option<real>,
    latitude: Option<real>,
    longitude: Option<real>,
    imagePath: Option<string>,
    timestamp: Option<string>,
    synced: Option<int>)

  /** `dict(row)` for a fetched row: the id together with the columns. */
  datatype Entry = Entry(id: nat, row: Row)

  datatype Ledger = Ledger(rows: map<nat, Row>, lastId: nat)

  /** The result of `insert_detection`: the new state and `cursor.lastrowid`. */
  datatype Inserted = Inserted(ledger: Ledger, id: nat)

  /** Every id in the table was issued by AUTOINCREMENT: it lies in [1, lastId]. */
  predicate Valid(l: Ledger) {
    forall id :: id in l.rows ==> 1 <= id <= l.lastId
  }

  /** A freshly created table. */
  function Empty(): (l: Ledger)
    ensures Valid(l) && |l.rows| == 0
  {
    Ledger(map[], 0)
  }

  /** The row the INSERT stores: `CURRENT_TIMESTAMP` and `synced = 0` fill omitted columns. */
  function Stored(nr: NewRow, now: string): (r: Row)
    ensures nr.synced == None ==> r.synced == 0
    ensures nr.synced.Some? ==> r.synced == nr.synced.value
    ensures nr.timestamp == None ==> r.timestamp == now
  {
    Row(nr.cameraId, nr.roadClass, nr.confidence, nr.widthCm, nr.depthCm,
        nr.bboxX1, nr.bboxY1, nr.bboxX2, nr.bboxY2, nr.latitude, nr.longitude,
        nr.imagePath, nr.timestamp.GetOr(now), nr.synced.GetOr(0))
  }

  /**
   `insert_detection`: the new id is larger than every id ever issued (so it is fresh),
   exactly one row is added, and no existing row changes.
   */
  function Insert(l: Ledger, nr: NewRow, now: string): (r: Inserted)
    requires Valid(l)
    ensures Valid(r.ledger)
    ensures r.id > l.lastId && r.ledger.lastId == r.id
    ensures r.id !in l.rows && forall id :: id in l.rows ==> id < r.id
    ensures r.ledger.rows.Keys == l.rows.Keys + {r.id}
    ensures |r.ledger.rows| == |l.rows| + 1
    ensures r.ledger.rows[r.id] == Stored(nr, now)
    ensures forall id :: id in l.rows ==> r.ledger.rows[id] == l.rows[id]
  {
    var id := l.lastId + 1;
    Inserted(Ledger(l.rows[id := Stored(nr, now)], id), id)
  }

  /** Strictly increasing, as `ORDER BY id ASC` over a primary key yields. */
  predicate Ascending(s: seq<nat>) {
    forall i, j :: 0 <= i < j < |s| ==> s[i] < s[j]
  }

  function Elems(s: seq<nat>): set<nat> {
    set x | x in s
  }

  /** A row the query selects: any row, or only those with `synced = 0`. */
  predicate Selected(rows: map<nat, Row>, id: nat, unsyncedOnly: bool) {
    id in rows && (!unsyncedOnly || rows[id].synced == 0)
  }

  /** The selected ids below `n`, smallest first. */
  function IdsBelow(rows: map<nat, Row>, n: nat, unsyncedOnly: bool): (ids: seq<nat>)
    ensures Ascending(ids)
    ensures forall i :: 0 <= i < |ids| ==> ids[i] < n
    ensures forall id: nat :: id in ids <==> id < n && Selected(rows, id, unsyncedOnly)
  {
    if n == 0 then []
    else
      var prev := IdsBelow(rows, n - 1, unsyncedOnly);
      if Selected(rows, n - 1, unsyncedOnly) then prev + [n - 1] else prev
  }

  /** The ids of all rows with `synced = 0`. */
  function UnsyncedSet(l: Ledger): set<nat> {
    set id | id in l.rows && l.rows[id].synced == 0
  }

  /** All selected ids of a valid ledger, ascending. */
  function OrderedIds(l: Ledger, unsyncedOnly: bool): (ids: seq<nat>)
    requires Valid(l)
    ensures Ascending(ids)
    ensures forall i :: 0 <= i < |ids| ==> Selected(l.rows, ids[i], unsyncedOnly)
    ensures Elems(ids) == (if unsyncedOnly then UnsyncedSet(l) else l.rows.Keys)
  {
    IdsBelow(l.rows, l.lastId + 1, unsyncedOnly)
  }

  /** An ascending sequence has no repeats, so it has as many elements as its set. */
  lemma {:induction false} AscendingCard(s: seq<nat>)
    requires Ascending(s)
    ensures |Elems(s)| == |s|
    decreases |s|
  {
    if |s| > 0 {
      var init := s[..|s| - 1];
      AscendingCard(init);
      assert Elems(s) == Elems(init) + {s[|s| - 1]};
      assert s[|s| - 1] !in Elems(init);
    }
  }

  /** An ascending sequence drawn from `1..hi` has at most `hi` elements. */
  lemma {:induction false} AscendingBounded(s: seq<nat>, hi: nat)
    requires Ascending(s)
    requires forall i :: 0 <= i < |s| ==> 1 <= s[i] <= hi
    ensures |s| <= hi
    decreases |s|
  {
    if |s| > 0 {
      var top := s[|s| - 1];
      AscendingBounded(s[..|s| - 1], top - 1);
    }
  }

  /**
   `get_total_count`: `SELECT COUNT(*)`. On a valid ledger it never exceeds the last id
   handed out, because ids are never reused.
   */
  function TotalCount(l: Ledger): (n: nat)
    ensures n == |l.rows.Keys|
    ensures Valid(l) ==> n <= l.lastId
  {
    RowsBelowLastId(l);
    |l.rows|
  }

  /** A valid ledger holds at most as many rows as ids handed out. */
  lemma RowsBelowLastId(l: Ledger)
    ensures Valid(l) ==> |l.rows| <= l.lastId
  {
    if Valid(l) {
      var ids := OrderedIds(l, false);
      AscendingCard(ids);
      AscendingBounded(ids, l.lastId);
    }
  }

  /** The count agrees with the id-ordered listing of all rows. */
  lemma TotalCountIsListing(l: Ledger)
    requires Valid(l)
    ensures TotalCount(l) == |OrderedIds(l, false)|
  {
    AscendingCard(OrderedIds(l, false));
  }

  /** `get_unsynced_count`: rows with `synced = 0`; never more than the total. */
  function UnsyncedCount(l: Ledger): (n: nat)
    requires Valid(l)
    ensures n == |UnsyncedSet(l)|
    ensures n <= TotalCount(l)
    ensures n == |OrderedIds(l, true)|
  {
    var ids := OrderedIds(l, true);
    AscendingCard(ids);
    AscendingCard(OrderedIds(l, false));
    SubsetCard(Elems(ids), Elems(OrderedIds(l, false)));
    |UnsyncedSet(l)|
  }

  lemma {:induction false} SubsetCard(a: set<nat>, b: set<nat>)
    requires a <= b
    ensures |a| <= |b|
    decreases b
  {
    if a != {} {
      var x :| x in a;
      SubsetCard(a - {x}, b - {x});
    }
  }

  function IdsOf(batch: seq<Entry>): (ids: seq<nat>)
    ensures |ids| == |batch|
    ensures forall i :: 0 <= i < |batch| ==> ids[i] == batch[i].id
  {
    seq(|batch|, i requires 0 <= i < |batch| => batch[i].id)
  }

  /**
   `get_unsynced(limit)`: `WHERE synced = 0 ORDER BY id ASC LIMIT ?`. A negative limit
   means no limit in SQLite. The batch holds the lowest-id unsynced rows, as stored, and
   is as long as the limit allows.
   */
  function GetUnsynced(l: Ledger, limit: int): (batch: seq<Entry>)
    requires Valid(l)
    ensures 0 <= limit <= UnsyncedCount(l) ==> |batch| == limit
    ensures limit > UnsyncedCount(l) ==> |batch| == UnsyncedCount(l)
    ensures limit < 0 ==> |batch| == UnsyncedCount(l)
    ensures forall i :: 0 <= i < |batch| ==>
      batch[i].id in UnsyncedSet(l) && batch[i].row == l.rows[batch[i].id]
    ensures Ascending(IdsOf(batch))
    ensures forall id :: id in UnsyncedSet(l) && id !in IdsOf(batch) ==>
      forall i :: 0 <= i < |batch| ==> batch[i].id < id
  {
    var n := UnsyncedCount(l);
    LowestUnsynced(l, if limit < 0 || limit > n then n else limit)
  }

  /** The first `k` rows of the unsynced listing, with their stored contents. */
  function LowestUnsynced(l: Ledger, k: nat): (batch: seq<Entry>)
    requires Valid(l) && k <= |OrderedIds(l, true)|
    ensures |batch| == k
    ensures forall i :: 0 <= i < |batch| ==>
      batch[i].id in UnsyncedSet(l) && batch[i].row == l.rows[batch[i].id]
    ensures Ascending(IdsOf(batch))
    ensures forall id :: id in UnsyncedSet(l) && id !in IdsOf(batch) ==>
      forall i :: 0 <= i < |batch| ==> batch[i].id < id
  {
    var ids := OrderedIds(l, true);
    var batch := seq(k, i requires 0 <= i < k => Entry(ids[i], l.rows[ids[i]]));
    assert IdsOf(batch) == ids[..k];
    forall id | id in UnsyncedSet(l) && id !in IdsOf(batch)
      ensures forall i :: 0 <= i < k ==> ids[i] < id
    {
      assert id in Elems(ids);
      PrefixBelowRest(ids, k, id);
    }
    batch
  }

  /** In an ascending list, everything before position `k` is below anything after it. */
  lemma PrefixBelowRest(ids: seq<nat>, k: nat, id: nat)
    requires Ascending(ids) && k <= |ids|
    requires id in ids && id !in ids[..k]
    ensures forall i :: 0 <= i < k ==> ids[i] < id
  {
    var j :| 0 <= j < |ids| && ids[j] == id;
    assert j >= k;
  }

  /**
   `mark_synced(ids)`: `UPDATE ... SET synced = 1 WHERE id IN (...)`. An empty list is a
   no-op; otherwise exactly the listed rows that exist get `synced = 1`, every other column
   and every other row stays as it was, and no row is added or removed.
   */
  function MarkSynced(l: Ledger, ids: seq<nat>): (r: Ledger)
    ensures |ids| == 0 ==> r == l
    ensures r.lastId == l.lastId && r.rows.Keys == l.rows.Keys
    ensures forall id :: id in l.rows && id in ids ==> r.rows[id] == l.rows[id].(synced := 1)
    ensures forall id :: id in l.rows && id !in ids ==> r.rows[id] == l.rows[id]
  {
    if |ids| == 0 then l
    else
      Ledger(map id | id in l.rows :: if id in ids then l.rows[id].(synced := 1) else l.rows[id], l.lastId)
  }

  /** Marking the same ids twice is the same as marking them once. */
  lemma MarkSyncedIdempotent(l: Ledger, ids: seq<nat>)
    ensures MarkSynced(MarkSynced(l, ids), ids) == MarkSynced(l, ids)
  {
    var once := MarkSynced(l, ids);
    var twice := MarkSynced(once, ids);
    assert twice.rows == once.rows;
  }

  /** The ledger invariant survives both state changes. */
  lemma MarkSyncedValid(l: Ledger, ids: seq<nat>)
    requires Valid(l)
    ensures Valid(MarkSynced(l, ids))
  {
  }

  /** After marking, the unsynced rows are the former ones minus the listed ids. */
  lemma MarkSyncedUnsynced(l: Ledger, ids: seq<nat>)
    ensures UnsyncedSet(MarkSynced(l, ids)) == UnsyncedSet(l) - Elems(ids)
  {
    var r := MarkSynced(l, ids);
    forall id | id in UnsyncedSet(l) - Elems(ids)
      ensures id in UnsyncedSet(r)
    {
      assert id !in ids;
    }
  }

  /** Marking never raises the unsynced count and never changes the total count. */
  lemma MarkSyncedCounts(l: Ledger, ids: seq<nat>)
    requires Valid(l)
    ensures UnsyncedCount(MarkSynced(l, ids)) <= UnsyncedCount(l)
    ensures TotalCount(MarkSynced(l, ids)) == TotalCount(l)
  {
    MarkSyncedValid(l, ids);
    MarkSyncedUnsynced(l, ids);
    SubsetCard(UnsyncedSet(MarkSynced(l, ids)), UnsyncedSet(l));
  }

  /** Inserting never lowers either count; an unsynced insert raises both by one. */
  lemma InsertCounts(l: Ledger, nr: NewRow, now: string)
    requires Valid(l)
    ensures TotalCount(Insert(l, nr, now).ledger) == TotalCount(l) + 1
    ensures nr.synced == None || nr.synced == Some(0) ==>
      UnsyncedCount(Insert(l, nr, now).ledger) == UnsyncedCount(l) + 1
  {
    var r := Insert(l, nr, now);
    if nr.synced == None || nr.synced == Some(0) {
      assert UnsyncedSet(r.ledger) == UnsyncedSet(l) + {r.id};
    }
  }
}

/**
 The sync tick of the main window (`_sync_now`, `_auto_sync`): take the oldest unsynced
 rows, at most 200, upload them, and mark exactly that batch synced when the upload
 reports success. Composed with the ledger this drains a backlog at 200 rows per tick.
 */
module Sync {
  import opened Optional
  import opened Ledger
  import opened Remote

  const BatchLimit: nat := 200

  /** The cloud as one sync sees it: whether a client exists, and the call outcomes. */
  datatype Client = Client(available: bool, outcome: nat -> bool)

  /** The ledger after a sync, and the upload report when an upload was attempted. */
  datatype Tick = Tick(ledger: Ledger, upload: Option<UpsertReport>)

  /** A client whose first call succeeds. */
  predicate Reliable(c: Client) {
    c.available && c.outcome(0)
  }

  /** The rows one sync takes: `get_unsynced(limit=200)`. */
  function Batch(l: Ledger): (batch: seq<Entry>)
    requires Valid(l)
    ensures |batch| <= BatchLimit
    ensures |batch| == 0 <==> UnsyncedCount(l) == 0
  {
    GetUnsynced(l, BatchLimit)
  }

  /** Whether the sync's upload reported success. */
  predicate Uploaded(s: Tick) {
    s.upload.Some? && s.upload.value.ok
  }

  /**
   `_sync_now`: with nothing pending there is no upload and no change; otherwise the
   batch is uploaded and, when the upload succeeds, exactly the batch is marked synced.
   */
  function SyncNow(l: Ledger, c: Client): (r: Tick)
    requires Valid(l)
    ensures Valid(r.ledger)
    ensures UnsyncedCount(l) == 0 ==> r.ledger == l && r.upload.None?
  {
    var batch := Batch(l);
    if |batch| == 0 then Tick(l, None)
    else
      var report := Upsert(c.available, batch, c.outcome);
      if report.ok then
        MarkSyncedValid(l, IdsOf(batch));
        Tick(MarkSynced(l, IdsOf(batch)), Some(report))
      else Tick(l, Some(report))
  }

  /**
   What a sync does to the ledger: a non-empty batch is always offered to the upload; a
   row's `synced` flag changes exactly when the upload succeeded and the row is in the
   batch, and then it becomes 1; no row is added or removed.
   */
  lemma SyncNowEffect(l: Ledger, c: Client)
    requires Valid(l)
    ensures var r := SyncNow(l, c);
      && (UnsyncedCount(l) > 0 <==> r.upload.Some?)
      && (r.upload.Some? ==> r.upload.value == Upsert(c.available, Batch(l), c.outcome))
      && (!Uploaded(r) ==> r.ledger == l)
      && r.ledger.lastId == l.lastId && r.ledger.rows.Keys == l.rows.Keys
    ensures var r := SyncNow(l, c);
      forall id :: id in l.rows ==>
        && (r.ledger.rows[id].synced != l.rows[id].synced <==> Uploaded(r) && id in IdsOf(Batch(l)))
        && (r.ledger.rows[id] == l.rows[id] || r.ledger.rows[id] == l.rows[id].(synced := 1))
  {
    var batch := Batch(l);
    if |batch| > 0 {
      var ids := IdsOf(batch);
      assert forall i :: 0 <= i < |ids| ==> l.rows[ids[i]].synced == 0;
    }
  }

  /** Removing a subset takes away exactly its size. */
  lemma DiffCard(u: set<nat>, e: set<nat>)
    requires e <= u
    ensures |u - e| == |u| - |e|
  {
    assert u == (u - e) + e;
    assert (u - e) * e == {};
  }

  /** A successful sync lowers the unsynced count by the batch size: min(200, pending). */
  lemma SyncLowersCount(l: Ledger, c: Client)
    requires Valid(l) && Uploaded(SyncNow(l, c))
    ensures UnsyncedCount(SyncNow(l, c).ledger) == UnsyncedCount(l) - |Batch(l)|
    ensures UnsyncedCount(SyncNow(l, c).ledger) ==
      if UnsyncedCount(l) <= BatchLimit then 0 else UnsyncedCount(l) - BatchLimit
  {
    SyncNowEffect(l, c);
    var ids := IdsOf(Batch(l));
    MarkSyncedUnsynced(l, ids);
    AscendingCard(ids);
    assert Elems(ids) <= UnsyncedSet(l);
    DiffCard(UnsyncedSet(l), Elems(ids));
  }

  /** With a reliable client a non-empty backlog is uploaded. */
  lemma ReliableUploads(l: Ledger, c: Client)
    requires Valid(l) && Reliable(c) && UnsyncedCount(l) > 0
    ensures Uploaded(SyncNow(l, c))
  {
    SyncNowEffect(l, c);
  }

  /** `_auto_sync`: a sync runs only when the unsynced count is positive. */
  function AutoSync(l: Ledger, c: Client): (r: Tick)
    requires Valid(l)
    ensures Valid(r.ledger)
  {
    if UnsyncedCount(l) > 0 then SyncNow(l, c) else Tick(l, None)
  }

  /** The guard only saves the query: a timer tick has the effect of a manual sync. */
  lemma AutoSyncIsSyncNow(l: Ledger, c: Client)
    requires Valid(l)
    ensures AutoSync(l, c) == SyncNow(l, c)
  {
  }

  /** The ledger after `k` timer ticks against the same client. */
  function Ticks(l: Ledger, c: Client, k: nat): (r: Ledger)
    requires Valid(l)
    ensures Valid(r)
    decreases k
  {
    if k == 0 then l else Ticks(AutoSync(l, c).ledger, c, k - 1)
  }

  /** What one full batch leaves of `n` pending rows. */
  function AfterBatch(n: nat): nat {
    if n <= BatchLimit then 0 else n - BatchLimit
  }

  /** What `k` full batches leave of `n` pending rows. */
  function Backlog(n: nat, k: nat): nat
    decreases k
  {
    if k == 0 then n else Backlog(AfterBatch(n), k - 1)
  }

  /** The backlog after k batches is max(0, N - 200k). */
  lemma {:induction false} BacklogClosedForm(n: nat, k: nat)
    ensures Backlog(n, k) == if n <= 200 * k then 0 else n - 200 * k
    decreases k
  {
    if k > 0 {
      BacklogClosedForm(AfterBatch(n), k - 1);
    }
  }

  /** One reliable tick takes min(200, N) rows off the backlog. */
  lemma TickDrains(l: Ledger, c: Client)
    requires Valid(l) && Reliable(c)
    ensures UnsyncedCount(AutoSync(l, c).ledger) == AfterBatch(UnsyncedCount(l))
  {
    AutoSyncIsSyncNow(l, c);
    if UnsyncedCount(l) > 0 {
      ReliableUploads(l, c);
      SyncLowersCount(l, c);
    }
  }

  /** With a reliable client, each tick is one full batch. */
  lemma {:induction false} DrainSchedule(l: Ledger, c: Client, k: nat)
    requires Valid(l) && Reliable(c)
    ensures UnsyncedCount(Ticks(l, c, k)) == Backlog(UnsyncedCount(l), k)
    decreases k
  {
    if k > 0 {
      var next := AutoSync(l, c).ledger;
      assert Ticks(l, c, k) == Ticks(next, c, k - 1);
      assert UnsyncedCount(next) == AfterBatch(UnsyncedCount(l)) by {
        TickDrains(l, c);
      }
      assert Backlog(UnsyncedCount(l), k) == Backlog(UnsyncedCount(next), k - 1);
      DrainSchedule(next, c, k - 1);
    }
  }

  /** ceil(N / 200), counted one batch at a time. */
  function TicksNeeded(n: nat): (t: nat)
    ensures n > 0 ==> t > 0
    decreases n
  {
    if n == 0 then 0 else 1 + TicksNeeded(AfterBatch(n))
  }

  /** It is the ceiling: that many batches of 200 cover N rows, one fewer does not. */
  lemma {:induction false} TicksNeededIsCeiling(n: nat)
    ensures 200 * TicksNeeded(n) >= n
    ensures n > 0 ==> 200 * (TicksNeeded(n) - 1) < n
    decreases n
  {
    if n > 0 {
      TicksNeededIsCeiling(AfterBatch(n));
    }
  }

  /** ceil(N / 200) batches of 200 leave nothing, and one batch fewer leaves something. */
  lemma {:induction false} CeilingBatches(n: nat)
    ensures Backlog(n, TicksNeeded(n)) == 0
    ensures n > 0 ==> Backlog(n, TicksNeeded(n) - 1) > 0
    decreases n
  {
    if n > 0 {
      var m := AfterBatch(n);
      CeilingBatches(m);
      assert Backlog(n, TicksNeeded(n)) == Backlog(m, TicksNeeded(m));
      if m > 0 {
        assert Backlog(n, TicksNeeded(n) - 1) == Backlog(m, TicksNeeded(m) - 1);
      }
    }
  }

  /** A backlog that k batches do not clear is still pending after k reliable ticks. */
  lemma PendingAfter(l: Ledger, c: Client, k: nat)
    requires Valid(l) && Reliable(c)
    ensures Backlog(UnsyncedCount(l), k) == 0 ==> UnsyncedCount(Ticks(l, c, k)) == 0
    ensures Backlog(UnsyncedCount(l), k) > 0 ==> UnsyncedCount(Ticks(l, c, k)) > 0
  {
    DrainSchedule(l, c, k);
  }

  /** N pending rows are drained by ceil(N / 200) reliable ticks. */
  lemma DrainTicks(l: Ledger, c: Client)
    requires Valid(l) && Reliable(c)
    ensures UnsyncedCount(Ticks(l, c, TicksNeeded(UnsyncedCount(l)))) == 0
  {
    CeilingBatches(UnsyncedCount(l));
    PendingAfter(l, c, TicksNeeded(UnsyncedCount(l)));
  }

  /** One reliable tick fewer than ceil(N / 200) leaves rows pending. */
  lemma DrainNotSooner(l: Ledger, c: Client, k: nat)
    requires Valid(l) && Reliable(c) && UnsyncedCount(l) > 0
    requires k + 1 == TicksNeeded(UnsyncedCount(l))
    ensures UnsyncedCount(Ticks(l, c, k)) > 0
  {
    CeilingBatches(UnsyncedCount(l));
    PendingAfter(l, c, k);
  }

  /** 250 pending rows: one tick leaves 50, the second clears the backlog. */
  lemma Drain250(l: Ledger, c: Client)
    requires Valid(l) && Reliable(c) && UnsyncedCount(l) == 250
    ensures TicksNeeded(250) == 2
    ensures UnsyncedCount(Ticks(l, c, 1)) == 50
    ensures UnsyncedCount(Ticks(l, c, 2)) == 0
  {
    DrainSchedule(l, c, 1);
    DrainSchedule(l, c, 2);
  }

  /** A failed upload leaves the whole ledger untouched, so the next tick retries the same batch. */
  lemma FailureRetriesSameBatch(l: Ledger, c: Client)
    requires Valid(l) && !Uploaded(SyncNow(l, c))
    ensures Batch(SyncNow(l, c).ledger) == Batch(l)
  {
    SyncNowEffect(l, c);
  }
}

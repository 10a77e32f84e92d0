/** What holds over whole runs of interleaved transactions. */
module Runs {
  import Backoff
  import opened Numbers
  import opened Schema
  import opened Transactions
  import opened Invariant

  /** The tables before the k-th transaction of a run. */
  ghost function At(cfg: Config, db: Db, ops: seq<Op>, k: nat): Db
    requires k <= |ops|
  {
    Exec(cfg, db, ops[..k])
  }

  lemma AtNext(cfg: Config, db: Db, ops: seq<Op>, k: nat)
    requires k < |ops|
    ensures At(cfg, db, ops, k + 1) == Step(cfg, At(cfg, db, ops, k), ops[k])
  {
    assert ops[..k + 1][..k] == ops[..k];
  }

  lemma AtEnds(cfg: Config, db: Db, ops: seq<Op>)
    ensures At(cfg, db, ops, 0) == db
    ensures At(cfg, db, ops, |ops|) == Exec(cfg, db, ops)
  {
    assert ops[..|ops|] == ops;
  }

  lemma AtInv(cfg: Config, db: Db, ops: seq<Op>, k: nat)
    requires Inv(cfg, db) && k <= |ops|
    ensures Inv(cfg, At(cfg, db, ops, k))
  {
    RunKeepsInv(cfg, db, ops[..k]);
  }

  // ----- what one transaction does to one row -----

  ghost function Find(db: Db, r: int): Option<Row> {
    if r in db.queue then Some(db.queue[r]) else None
  }

  /** The transaction is an accepted enqueue that lands on row r. */
  ghost predicate OpLandsOn(cfg: Config, db: Db, op: Op, r: int) {
    op.Enqueue? && !EnqueueRejected(db, op.inputs) && EnqueueId(cfg, db, op.inputs) == r
  }

  ghost function EnqueuedRow(cfg: Config, db: Db, op: Op, r: int): Row
    requires op.Enqueue?
  {
    var excluded := Inserted(cfg, op.inputs, op.priority, op.now);
    if r in db.queue then Refreshed(db.queue[r], excluded) else excluded
  }

  ghost function CancelledRow(db: Db, lib: int, r: int): Option<Row> {
    if r !in db.queue || CancelDeletes(db, lib, r) then None
    else if CancelUpdates(db, lib, r) then Some(db.queue[r].(outputPaths := Kept(db, lib, r)))
    else Some(db.queue[r])
  }

  ghost function UnlinkedRow(row: Option<Row>, scans: set<int>): Option<Row> {
    if row.Some? then Some(Unlink(row.value, scans)) else None
  }

  /** Row r after the transaction, from row r and the table before it. */
  ghost function Changed(cfg: Config, db: Db, op: Op, r: int): Option<Row> {
    match op
    case Enqueue(_, _, _) => if OpLandsOn(cfg, db, op, r) then Some(EnqueuedRow(cfg, db, op, r)) else Find(db, r)
    case Dequeue(now) =>
      if NextReady(db, Seconds(now)) == Some(r) && r in db.queue then Some(db.queue[r].(status := Processing)) else Find(db, r)
    case Complete(id, now) =>
      if id == r && InStatus(db, r, Processing) then Some(CompletedRow(db.queue[r], now)) else Find(db, r)
    case Release(id) =>
      if id == r && InStatus(db, r, Processing) then Some(db.queue[r].(status := Pending, lastError := "")) else Find(db, r)
    case Fail(id, cause, now) =>
      if id == r && InStatus(db, r, Processing) then Some(FailedRow(cfg, db.queue[r], cause, now)) else Find(db, r)
    case Retry(id, now) =>
      if id == r && InStatus(db, r, Failed) then Some(RetriedRow(db.queue[r], now)) else Find(db, r)
    case Cleanup(inputs) => if r in CleanupIds(cfg, db, inputs) then None else Find(db, r)
    case ClearDone => if InStatus(db, r, Done) then None else Find(db, r)
    case Cancel(lib) => CancelledRow(db, lib, r)
    case ClearLibrary(lib) => UnlinkedRow(Find(db, r), ScansOf(db, lib))
    case ScanClear(lib) => UnlinkedRow(CancelledRow(db, lib, r), ScansOf(db, lib))
    case _ => Find(db, r)
  }

  lemma EnqueueChanges(cfg: Config, db: Db, op: Op, r: int)
    requires Inv(cfg, db) && op.Enqueue?
    ensures Find(Step(cfg, db, op), r) == Changed(cfg, db, op, r)
  {
    LookupExact(cfg, db, cfg.norm(op.inputs.track.artist), cfg.norm(op.inputs.track.title));
  }

  lemma CancelChanges(db: Db, lib: int, r: int)
    ensures Find(CancelTx(db, lib), r) == CancelledRow(db, lib, r)
    ensures ScansOf(CancelTx(db, lib), lib) == ScansOf(db, lib)
  {
  }

  lemma SettleChanges(cfg: Config, db: Db, op: Op, r: int)
    requires op.Complete? || op.Release? || op.Fail? || op.Retry? || op.Dequeue?
    ensures Find(Step(cfg, db, op), r) == Changed(cfg, db, op, r)
  {
  }

  lemma DeleteChanges(cfg: Config, db: Db, op: Op, r: int)
    requires op.Cleanup? || op.ClearDone? || op.ClearLibrary?
    ensures Find(Step(cfg, db, op), r) == Changed(cfg, db, op, r)
  {
  }

  lemma ClearChanges(cfg: Config, db: Db, op: Op, r: int)
    requires op.Cancel? || op.ScanClear?
    ensures Find(Step(cfg, db, op), r) == Changed(cfg, db, op, r)
  {
    hide CancelTx, CancelledRow;
    CancelChanges(db, op.lib, r);
  }

  lemma LedgerChanges(cfg: Config, db: Db, op: Op, r: int)
    requires op.Upsert? || op.SetStatus? || op.Store?
    ensures Find(Step(cfg, db, op), r) == Changed(cfg, db, op, r)
  {
    if op.Upsert? {
      UpsertCounters(db, op.lib, op.results, op.force);
    }
  }

  lemma RowStep(cfg: Config, db: Db, op: Op, r: int)
    requires Inv(cfg, db)
    ensures Find(Step(cfg, db, op), r) == Changed(cfg, db, op, r)
  {
    hide Step, Changed, Inv;
    if op.Enqueue? {
      EnqueueChanges(cfg, db, op, r);
    } else if op.Cleanup? || op.ClearDone? || op.ClearLibrary? {
      DeleteChanges(cfg, db, op, r);
    } else if op.Cancel? || op.ScanClear? {
      ClearChanges(cfg, db, op, r);
    } else if op.Upsert? || op.SetStatus? || op.Store? {
      LedgerChanges(cfg, db, op, r);
    } else {
      SettleChanges(cfg, db, op, r);
    }
  }

  // ----- identifiers are never reused -----

  lemma {:induction false} UpsertCounters(db: Db, lib: int, results: seq<ScanInput>, force: bool)
    ensures var db' := UpsertAll(db, lib, results, force);
      && db'.nextScan >= db.nextScan
      && (forall s :: s in db'.scans && s < db.nextScan ==> s in db.scans)
      && (forall s :: s in db.scans ==> s in db'.scans)
      && db' == db.(scans := db'.scans, nextScan := db'.nextScan)
  {
    if results != [] {
      UpsertCounters(db, lib, results[..|results| - 1], force);
    }
  }

  /** A step never lowers a counter and never revives a deleted identifier. */
  lemma IdsNeverReused(cfg: Config, db: Db, op: Op)
    requires Inv(cfg, db)
    ensures var db' := Step(cfg, db, op);
      && db.nextRow <= db'.nextRow && db.nextScan <= db'.nextScan
      && (forall id :: id in db'.queue && id < db.nextRow ==> id in db.queue)
      && (forall s :: s in db'.scans && s < db.nextScan ==> s in db.scans)
  {
    if op.Upsert? {
      UpsertCounters(db, op.lib, op.results, op.force);
    }
  }

  lemma {:induction false} CountersGrow(cfg: Config, db: Db, ops: seq<Op>, k: nat, n: nat)
    requires Inv(cfg, db) && k <= n <= |ops|
    ensures At(cfg, db, ops, k).nextRow <= At(cfg, db, ops, n).nextRow
    ensures At(cfg, db, ops, k).nextScan <= At(cfg, db, ops, n).nextScan
    decreases n
  {
    if k < n {
      CountersGrow(cfg, db, ops, k, n - 1);
      AtNext(cfg, db, ops, n - 1);
      AtInv(cfg, db, ops, n - 1);
      IdsNeverReused(cfg, At(cfg, db, ops, n - 1), ops[n - 1]);
    }
  }

  // ----- exclusive claim -----

  /** Only these transactions end a claim on row r. */
  predicate Settles(op: Op, r: int) {
    (op.Complete? || op.Release? || op.Fail?) && op.id == r
  }

  /** b is the same row as a, except that its priority may have risen and its own link changed. */
  predicate SamePayload(a: Row, b: Row) {
    b == a.(priority := b.priority, scanResultId := b.scanResultId) && a.priority <= b.priority
  }

  lemma NextReadyIsNext(db: Db, at: int)
    ensures NextReady(db, at).Some? ==> IsNext(db, at, NextReady(db, at).value)
  {
  }

  ghost predicate StillHas(row: Option<Row>, payload: Row) {
    row.Some? && SamePayload(payload, row.value)
  }

  /** No step other than its settlement touches a claimed row. */
  lemma ClaimedRowChange(cfg: Config, db: Db, op: Op, r: int)
    requires Inv(cfg, db) && InStatus(db, r, Processing) && !Settles(op, r)
    ensures StillHas(Changed(cfg, db, op, r), db.queue[r])
    ensures op.Dequeue? ==> NextReady(db, Seconds(op.now)) != Some(r)
  {
    if op.Dequeue? {
      NextReadyIsNext(db, Seconds(op.now));
    }
  }

  /** From the claim of row r until its settlement, however many transactions of whatever kind
      come in between, the row keeps its payload and no other dequeue returns it. */
  lemma {:induction false} ClaimIsExclusive(cfg: Config, db: Db, ops: seq<Op>, r: int, n: nat)
    requires Inv(cfg, db) && InStatus(db, r, Processing) && n <= |ops|
    requires forall op :: op in ops ==> !Settles(op, r)
    ensures StillHas(Find(At(cfg, db, ops, n), r), db.queue[r])
    ensures forall k: nat :: k < n && ops[k].Dequeue? ==> NextReady(At(cfg, db, ops, k), Seconds(ops[k].now)) != Some(r)
  {
    hide Step, Changed, Inv;
    if n == 0 {
      AtEnds(cfg, db, ops);
    } else {
      ClaimIsExclusive(cfg, db, ops, r, n - 1);
      AtNext(cfg, db, ops, n - 1);
      AtInv(cfg, db, ops, n - 1);
      ClaimedRowChange(cfg, At(cfg, db, ops, n - 1), ops[n - 1], r);
      RowStep(cfg, At(cfg, db, ops, n - 1), ops[n - 1], r);
    }
  }

  /** Hence the copy a dequeue hands out stays accurate until the claim is settled. */
  lemma ClaimedCopyStaysAccurate(cfg: Config, db: Db, now: int, ops: seq<Op>, r: int)
    requires Inv(cfg, db) && NextReady(db, Seconds(now)) == Some(r)
    requires forall op :: op in ops ==> !Settles(op, r)
    ensures var claimed := DequeueTx(db, now);
      var later := Exec(cfg, claimed, ops);
      && r in claimed.queue && r in later.queue
      && var (item, current) := (ToItem(r, claimed.queue[r]), ToItem(r, later.queue[r]));
         && item.status == current.status == Processing
         && current.inputs == item.inputs.(scanResultId := current.inputs.scanResultId)
         && current.attempts == item.attempts && current.nextAttemptAt == item.nextAttemptAt
  {
    NextReadyIsNext(db, Seconds(now));
    DequeueKeepsInv(cfg, db, now);
    ClaimIsExclusive(cfg, DequeueTx(db, now), ops, r, |ops|);
    AtEnds(cfg, DequeueTx(db, now), ops);
  }

  lemma DoneRowChange(cfg: Config, db: Db, op: Op, r: int)
    requires InStatus(db, r, Done) && !op.ClearDone?
    ensures StillHas(Changed(cfg, db, op, r), db.queue[r])
  {
    if op.Dequeue? {
      NextReadyIsNext(db, Seconds(op.now));
    }
  }

  /** Done rows stay done, payload and completion time frozen, until they are cleared. */
  lemma {:induction false} DoneIsFrozen(cfg: Config, db: Db, ops: seq<Op>, r: int, n: nat)
    requires Inv(cfg, db) && InStatus(db, r, Done) && n <= |ops|
    requires forall op :: op in ops ==> !op.ClearDone?
    ensures StillHas(Find(At(cfg, db, ops, n), r), db.queue[r])
  {
    hide Step, Changed, Inv;
    if n == 0 {
      AtEnds(cfg, db, ops);
    } else {
      DoneIsFrozen(cfg, db, ops, r, n - 1);
      AtNext(cfg, db, ops, n - 1);
      AtInv(cfg, db, ops, n - 1);
      DoneRowChange(cfg, At(cfg, db, ops, n - 1), ops[n - 1], r);
      RowStep(cfg, At(cfg, db, ops, n - 1), ops[n - 1], r);
    }
  }

  // ----- backoff safety -----

  /** The two ways to cut a wait short. */
  predicate Hastens(cfg: Config, op: Op, r: int, row: Row) {
    || (op.Retry? && op.id == r)
    || (op.Enqueue? && op.priority >= PRIORITY_WEBHOOK
        && cfg.norm(op.inputs.track.artist) == row.artistKey && cfg.norm(op.inputs.track.title) == row.titleKey)
  }

  predicate Waiting(a: Row, b: Row) {
    b.status == Failed && b.nextAttemptAt == a.nextAttemptAt && b.attempts == a.attempts && SameKey(a, b)
  }

  ghost predicate GoneOrWaiting(row: Option<Row>, failed: Row) {
    row.Some? ==> Waiting(failed, row.value)
  }

  lemma FailedRowChange(cfg: Config, db: Db, op: Op, r: int)
    requires Inv(cfg, db) && InStatus(db, r, Failed) && !Hastens(cfg, op, r, db.queue[r])
    ensures
      || GoneOrWaiting(Changed(cfg, db, op, r), db.queue[r])
      || (op.Dequeue? && db.queue[r].nextAttemptAt <= Seconds(op.now))
    ensures op.Dequeue? && NextReady(db, Seconds(op.now)) == Some(r) ==> db.queue[r].nextAttemptAt <= Seconds(op.now)
  {
    match op
    case Enqueue(inputs, priority, now) =>
      LookupExact(cfg, db, cfg.norm(inputs.track.artist), cfg.norm(inputs.track.title));
    case Dequeue(now) => NextReadyIsNext(db, Seconds(now));
    case _ =>
  }

  /** The clock reading of a dequeue never precedes that of an earlier one. */
  predicate ClockOrdered(ops: seq<Op>) {
    forall i, j :: 0 <= i < j < |ops| && ops[i].Dequeue? && ops[j].Dequeue? ==> ops[i].now <= ops[j].now
  }

  /** A dequeue at or after stored time `at` is among the first n transactions. */
  predicate Elapsed(ops: seq<Op>, at: int, n: nat)
    requires n <= |ops|
  {
    exists i :: 0 <= i < n && ops[i].Dequeue? && at <= Seconds(ops[i].now)
  }

  lemma {:induction false} WaitsUntilElapsed(cfg: Config, db: Db, ops: seq<Op>, r: int, n: nat)
    requires Inv(cfg, db) && InStatus(db, r, Failed) && n <= |ops|
    requires forall op :: op in ops ==> !Hastens(cfg, op, r, db.queue[r])
    ensures Elapsed(ops, db.queue[r].nextAttemptAt, n) || GoneOrWaiting(Find(At(cfg, db, ops, n), r), db.queue[r])
  {
    hide Step, Changed;
    if n == 0 {
      AtEnds(cfg, db, ops);
    } else {
      WaitsUntilElapsed(cfg, db, ops, r, n - 1);
      AtNext(cfg, db, ops, n - 1);
      AtInv(cfg, db, ops, n - 1);
      var before := At(cfg, db, ops, n - 1);
      if !Elapsed(ops, db.queue[r].nextAttemptAt, n - 1) {
        if r in before.queue {
          assert !Hastens(cfg, ops[n - 1], r, db.queue[r]);
          FailedRowChange(cfg, before, ops[n - 1], r);
          RowStep(cfg, before, ops[n - 1], r);
        } else {
          CountersGrow(cfg, db, ops, 0, n - 1);
          AtEnds(cfg, db, ops);
          IdsNeverReused(cfg, before, ops[n - 1]);
        }
      }
    }
  }

  /** A row failed at time `now` is not dequeued before the stored floor of `now` plus the wait
      for its number of failures, so less than one second early at most. This holds in every run
      without a webhook-priority enqueue of its keys and without a retry of its id; enqueues at
      scan priority, releases, deletions and library clears may be interleaved freely. */
  lemma BackoffIsRespected(cfg: Config, db: Db, cause: Option<string>, now: int, ops: seq<Op>, r: int, k: nat)
    requires Inv(cfg, db) && InStatus(db, r, Processing)
    requires forall op :: op in ops ==> !Hastens(cfg, op, r, db.queue[r])
    requires ClockOrdered(ops) && k < |ops| && ops[k].Dequeue?
    requires NextReady(At(cfg, FailTx(cfg, db, r, cause, now), ops, k), Seconds(ops[k].now)) == Some(r)
    ensures RetryAt(cfg, db.queue[r].attempts + 1, now) <= Seconds(ops[k].now)
    ensures now + Backoff.Wait(db.queue[r].attempts + 1, cfg.base, cfg.max) < ops[k].now + Backoff.SECOND
  {
    var failed := FailTx(cfg, db, r, cause, now);
    SettleKeepsInv(cfg, db, r, cause, now);
    WaitsUntilElapsed(cfg, failed, ops, r, k);
    AtInv(cfg, failed, ops, k);
    var before := At(cfg, failed, ops, k);
    var at := failed.queue[r].nextAttemptAt;
    NextReadyIsNext(before, Seconds(ops[k].now));
    if Elapsed(ops, at, k) {
      var i :| 0 <= i < k && ops[i].Dequeue? && at <= Seconds(ops[i].now);
      SecondsMonotone(ops[i].now, ops[k].now);
    } else {
      FailedRowChange(cfg, before, ops[k], r);
    }
    FloorLosesLessThanASecond(now + Backoff.Wait(db.queue[r].attempts + 1, cfg.base, cfg.max), ops[k].now);
  }

  /** Failing a claimed row counts one more attempt, records the cause, and changes nothing else;
      the row is due again exactly when the wait for that many failures is over. */
  lemma FailedRowIsDueAfterItsWait(cfg: Config, db: Db, cause: Option<string>, now: int, r: int, at: int)
    requires InStatus(db, r, Processing)
    ensures var (row, db') := (db.queue[r], FailTx(cfg, db, r, cause, now));
      && r in db'.queue && db' == db.(queue := db.queue[r := db'.queue[r]])
      && db'.queue[r] == row.(status := Failed, attempts := row.attempts + 1, lastError := if cause.Some? then cause.value else "",
                              nextAttemptAt := db'.queue[r].nextAttemptAt)
      && (Ready(db', at, r) <==> Seconds(now + Backoff.Wait(row.attempts + 1, cfg.base, cfg.max)) <= at)
  {
  }

  /** The n-th transaction claims row r. */
  ghost predicate ClaimsRow(cfg: Config, db: Db, ops: seq<Op>, n: nat, r: int)
    requires n < |ops|
  {
    ops[n].Dequeue? && NextReady(At(cfg, db, ops, n), Seconds(ops[n].now)) == Some(r)
  }

  lemma UnclaimedRowChange(cfg: Config, db: Db, op: Op, r: int)
    requires Inv(cfg, db) && InStatus(db, r, Failed) && !Hastens(cfg, op, r, db.queue[r])
    requires op.Dequeue? ==> NextReady(db, Seconds(op.now)) != Some(r)
    ensures GoneOrWaiting(Changed(cfg, db, op, r), db.queue[r])
  {
    if op.Enqueue? {
      LookupExact(cfg, db, cfg.norm(op.inputs.track.artist), cfg.norm(op.inputs.track.title));
    }
  }

  lemma {:induction false} UnclaimedRowWaits(cfg: Config, db: Db, ops: seq<Op>, r: int, n: nat)
    requires Inv(cfg, db) && InStatus(db, r, Failed) && n <= |ops|
    requires forall op :: op in ops ==> !Hastens(cfg, op, r, db.queue[r])
    requires forall k: nat :: k < n ==> !ClaimsRow(cfg, db, ops, k, r)
    ensures GoneOrWaiting(Find(At(cfg, db, ops, n), r), db.queue[r])
  {
    hide Step, Changed, Inv;
    AtEnds(cfg, db, ops);
    if n != 0 {
      UnclaimedRowWaits(cfg, db, ops, r, n - 1);
      var before, op := At(cfg, db, ops, n - 1), ops[n - 1];
      AtNext(cfg, db, ops, n - 1);
      AtInv(cfg, db, ops, n - 1);
      assert !Hastens(cfg, op, r, db.queue[r]);
      assert !ClaimsRow(cfg, db, ops, n - 1, r);
      if r in before.queue {
        UnclaimedRowChange(cfg, before, op, r);
        RowStep(cfg, before, op, r);
      } else {
        NotRevived(cfg, db, ops, r, n);
      }
    }
  }

  /** A row that is gone stays gone. */
  lemma NotRevived(cfg: Config, db: Db, ops: seq<Op>, r: int, n: nat)
    requires Inv(cfg, db) && r in db.queue && 0 < n <= |ops| && r !in At(cfg, db, ops, n - 1).queue
    ensures r !in At(cfg, db, ops, n).queue
  {
    hide Step;
    AtEnds(cfg, db, ops);
    AtNext(cfg, db, ops, n - 1);
    AtInv(cfg, db, ops, n - 1);
    CountersGrow(cfg, db, ops, 0, n - 1);
    IdsNeverReused(cfg, At(cfg, db, ops, n - 1), ops[n - 1]);
  }

  /** The wait ends: in every run without a retry or a webhook-priority enqueue of it, as long as a
      failed row is neither claimed nor deleted, it is ready exactly once its wait is over. */
  lemma WaitEnds(cfg: Config, db: Db, cause: Option<string>, now: int, ops: seq<Op>, r: int, n: nat, at: int)
    requires Inv(cfg, db) && InStatus(db, r, Processing) && n <= |ops|
    requires forall op :: op in ops ==> !Hastens(cfg, op, r, db.queue[r])
    requires forall k: nat :: k < n ==> !ClaimsRow(cfg, FailTx(cfg, db, r, cause, now), ops, k, r)
    requires r in At(cfg, FailTx(cfg, db, r, cause, now), ops, n).queue
    ensures Ready(At(cfg, FailTx(cfg, db, r, cause, now), ops, n), at, r)
       <==> Seconds(now + Backoff.Wait(db.queue[r].attempts + 1, cfg.base, cfg.max)) <= at
  {
    var failed := FailTx(cfg, db, r, cause, now);
    SettleKeepsInv(cfg, db, r, cause, now);
    FailedRowIsDueAfterItsWait(cfg, db, cause, now, r, at);
    UnclaimedRowWaits(cfg, failed, ops, r, n);
  }

  lemma SecondsMonotone(a: int, b: int)
    requires a <= b
    ensures Seconds(a) <= Seconds(b)
  {
  }

  /** Stored times are whole seconds, rounded down, of a clock in nanoseconds. */
  lemma SecondsAreFloored(nanos: int)
    ensures Seconds(nanos) * 1_000_000_000 <= nanos < (Seconds(nanos) + 1) * 1_000_000_000
  {
  }

  lemma FloorLosesLessThanASecond(a: int, b: int)
    requires Seconds(a) <= Seconds(b)
    ensures a < b + Backoff.SECOND
  {
  }

  /** The exception is real: a webhook-priority duplicate makes a failed row ready at once, while
      keeping its failure count and error. */
  lemma WebhookEndsTheWait(cfg: Config, db: Db, inputs: Inputs, priority: int, now: int, r: int)
    requires Inv(cfg, db) && InStatus(db, r, Failed) && !EnqueueRejected(db, inputs)
    requires HasKey(db, r, cfg.norm(inputs.track.artist), cfg.norm(inputs.track.title))
    ensures var db' := EnqueueTx(cfg, db, inputs, priority, now);
      && InStatus(db', r, Failed)
      && db'.queue[r].attempts == db.queue[r].attempts && db'.queue[r].lastError == db.queue[r].lastError
      && (Ready(db', Seconds(now), r) <==> priority >= PRIORITY_WEBHOOK || Ready(db, Seconds(now), r))
  {
    LookupExact(cfg, db, cfg.norm(inputs.track.artist), cfg.norm(inputs.track.title));
  }

  // ----- no collapsed scan result is lost -----

  /** The i-th transaction is an accepted enqueue that lands on row r. */
  ghost predicate LandsOn(cfg: Config, db: Db, ops: seq<Op>, i: nat, r: int) {
    && i < |ops| && ops[i].Enqueue?
    && !EnqueueRejected(At(cfg, db, ops, i), ops[i].inputs)
    && EnqueueId(cfg, At(cfg, db, ops, i), ops[i].inputs) == r
  }

  /** ... and it carries scan result s. */
  ghost predicate Records(cfg: Config, db: Db, ops: seq<Op>, i: nat, r: int, s: int) {
    LandsOn(cfg, db, ops, i, r) && LinkOf(ops[i].inputs) == Some(s)
  }

  /** Exactly an accepted enqueue creates a link, and exactly the deletion of an end removes it. */
  lemma LinkStep(cfg: Config, db: Db, op: Op, r: int, s: int)
    requires Inv(cfg, db)
    ensures var db' := Step(cfg, db, op);
      (r, s) in db'.links <==>
        && ((r, s) in db.links || (OpLandsOn(cfg, db, op, r) && LinkOf(op.inputs) == Some(s)))
        && r in db'.queue && s in db'.scans
  {
    match op
    case Enqueue(inputs, priority, now) =>
      LookupExact(cfg, db, cfg.norm(inputs.track.artist), cfg.norm(inputs.track.title));
    case Upsert(lib, results, force) => UpsertCounters(db, lib, results, force);
    case _ =>
  }

  lemma LandedRowIsOld(cfg: Config, db: Db, ops: seq<Op>, i: nat, r: int, n: nat)
    requires Inv(cfg, db) && i < n <= |ops| && LandsOn(cfg, db, ops, i, r)
    ensures r < At(cfg, db, ops, n).nextRow
    ensures LinkOf(ops[i].inputs).Some? ==> LinkOf(ops[i].inputs).value < At(cfg, db, ops, n).nextScan
  {
    var before := At(cfg, db, ops, i);
    AtInv(cfg, db, ops, i);
    AtNext(cfg, db, ops, i);
    LookupExact(cfg, before, cfg.norm(ops[i].inputs.track.artist), cfg.norm(ops[i].inputs.track.title));
    CountersGrow(cfg, db, ops, i + 1, n);
    CountersGrow(cfg, db, ops, i, n);
  }

  /** In every run from an empty database, row r and scan result s are linked exactly when both
      still exist and some enqueue carrying s has landed on r: no status change, release, retry,
      refresh or clearing of other libraries loses or invents a link. */
  lemma {:induction false} LinksAreHistory(cfg: Config, ops: seq<Op>, r: int, s: int, n: nat)
    requires n <= |ops|
    ensures var db := At(cfg, EMPTY, ops, n);
      (r, s) in db.links <==> r in db.queue && s in db.scans && exists i: nat :: i < n && Records(cfg, EMPTY, ops, i, r, s)
  {
    hide Step, Changed, Inv;
    EmptyIsConsistent(cfg);
    if n == 0 {
      AtEnds(cfg, EMPTY, ops);
    } else {
      LinksAreHistory(cfg, ops, r, s, n - 1);
      var before, op := At(cfg, EMPTY, ops, n - 1), ops[n - 1];
      AtNext(cfg, EMPTY, ops, n - 1);
      AtInv(cfg, EMPTY, ops, n - 1);
      LinkStep(cfg, before, op, r, s);
      IdsNeverReused(cfg, before, op);
      if i: nat :| i < n - 1 && Records(cfg, EMPTY, ops, i, r, s) {
        LandedRowIsOld(cfg, EMPTY, ops, i, r, n - 1);
      }
      assert Records(cfg, EMPTY, ops, n - 1, r, s) <==> OpLandsOn(cfg, before, op, r) && LinkOf(op.inputs) == Some(s);
    }
  }

  /** Completing a claimed row marks every still existing scan result that was ever enqueued onto
      it done, changes nothing else in the ledger, and happens together with the row or not at all.
      The row keeps its payload, and every other row stays as it is. */
  lemma NoScanResultIsLost(cfg: Config, ops: seq<Op>, r: int, now: int)
    ensures var db := Exec(cfg, EMPTY, ops);
      var db' := CompleteTx(db, r, now);
      if InStatus(db, r, Processing) then
        && InStatus(db', r, Done)
        && db'.queue[r] == db.queue[r].(status := Done, completedAt := Some(Seconds(now)), lastError := "")
        && ToItem(r, db'.queue[r]).inputs == ToItem(r, db.queue[r]).inputs
        && db'.links == db.links && db'.queue.Keys == db.queue.Keys && db'.scans.Keys == db.scans.Keys
        && (forall other :: other in db.queue && other != r ==> db'.queue[other] == db.queue[other])
        && forall s :: s in db.scans ==>
             db'.scans[s] == if exists i: nat :: Records(cfg, EMPTY, ops, i, r, s)
                             then db.scans[s].(status := Done) else db.scans[s]
      else
        db' == db
  {
    AtEnds(cfg, EMPTY, ops);
    var db := Exec(cfg, EMPTY, ops);
    var db' := CompleteTx(db, r, now);
    if InStatus(db, r, Processing) {
      forall s | s in db.scans
        ensures db'.scans[s] == if exists i: nat :: Records(cfg, EMPTY, ops, i, r, s)
                                then db.scans[s].(status := Done) else db.scans[s]
      {
        LinksAreHistory(cfg, ops, r, s, |ops|);
        assert s in Linked(db, r) <==> (r, s) in db.links;
        assert forall i: nat :: Records(cfg, EMPTY, ops, i, r, s) ==> i < |ops|;
      }
    }
  }

  // ----- a live row is a fold of its history -----

  /** p is the greatest priority among the first n enqueues that landed on r. */
  ghost predicate GreatestPriority(cfg: Config, ops: seq<Op>, n: nat, r: int, p: int)
    requires n <= |ops|
  {
    && (exists i: nat :: i < n && LandsOn(cfg, EMPTY, ops, i, r) && ops[i].priority == p)
    && (forall i: nat :: i < n && LandsOn(cfg, EMPTY, ops, i, r) ==> ops[i].priority <= p)
  }

  lemma PriorityChange(cfg: Config, db: Db, op: Op, r: int)
    requires Changed(cfg, db, op, r).Some?
    ensures var p := Changed(cfg, db, op, r).value.priority;
      if r !in db.queue then OpLandsOn(cfg, db, op, r) && p == op.priority
      else if OpLandsOn(cfg, db, op, r) then p == Max(db.queue[r].priority, op.priority)
      else p == db.queue[r].priority
  {
  }

  /** In every run from an empty database, a live row's priority is the greatest with which it was
      ever enqueued. */
  lemma {:induction false} PriorityIsGreatest(cfg: Config, ops: seq<Op>, r: int, n: nat)
    requires n <= |ops| && r in At(cfg, EMPTY, ops, n).queue
    ensures GreatestPriority(cfg, ops, n, r, At(cfg, EMPTY, ops, n).queue[r].priority)
  {
    hide Step, Changed, Inv;
    EmptyIsConsistent(cfg);
    AtEnds(cfg, EMPTY, ops);
    if n != 0 {
      var before, op := At(cfg, EMPTY, ops, n - 1), ops[n - 1];
      AtNext(cfg, EMPTY, ops, n - 1);
      AtInv(cfg, EMPTY, ops, n - 1);
      RowStep(cfg, before, op, r);
      PriorityChange(cfg, before, op, r);
      assert LandsOn(cfg, EMPTY, ops, n - 1, r) <==> OpLandsOn(cfg, before, op, r);
      if r in before.queue {
        PriorityIsGreatest(cfg, ops, r, n - 1);
      } else {
        IdsNeverReused(cfg, before, op);
        forall i: nat | i < n - 1
          ensures !LandsOn(cfg, EMPTY, ops, i, r)
        {
          if LandsOn(cfg, EMPTY, ops, i, r) {
            LandedRowIsOld(cfg, EMPTY, ops, i, r, n - 1);
          }
        }
      }
    }
  }

  /** The failures recorded on r since it was inserted or last successfully retried. */
  ghost function FailsSinceRetry(cfg: Config, ops: seq<Op>, r: int, n: nat): nat
    requires n <= |ops|
  {
    if n == 0 then
      0
    else
      var before, op := At(cfg, EMPTY, ops, n - 1), ops[n - 1];
      if op.Fail? && op.id == r && InStatus(before, r, Processing) then
        FailsSinceRetry(cfg, ops, r, n - 1) + 1
      else if op.Retry? && op.id == r && InStatus(before, r, Failed) then
        0
      else
        FailsSinceRetry(cfg, ops, r, n - 1)
  }

  lemma AttemptsChange(cfg: Config, db: Db, op: Op, r: int)
    requires Changed(cfg, db, op, r).Some?
    ensures Changed(cfg, db, op, r).value.attempts ==
      if op.Fail? && op.id == r && InStatus(db, r, Processing) then db.queue[r].attempts + 1
      else if op.Retry? && op.id == r && InStatus(db, r, Failed) then 0
      else if r in db.queue then db.queue[r].attempts
      else 0
  {
  }

  /** In every run from an empty database, a live row's attempts count exactly those failures,
      whatever releases, refreshes and other rows are interleaved. */
  lemma {:induction false} AttemptsCountFailures(cfg: Config, ops: seq<Op>, r: int, n: nat)
    requires n <= |ops|
    ensures var db := At(cfg, EMPTY, ops, n);
      && (r in db.queue ==> db.queue[r].attempts == FailsSinceRetry(cfg, ops, r, n))
      && (db.nextRow <= r ==> FailsSinceRetry(cfg, ops, r, n) == 0)
  {
    hide Step, Changed;
    AtEnds(cfg, EMPTY, ops);
    if n != 0 {
      var before, op := At(cfg, EMPTY, ops, n - 1), ops[n - 1];
      AttemptsCountFailures(cfg, ops, r, n - 1);
      AtNext(cfg, EMPTY, ops, n - 1);
      AtInv(cfg, EMPTY, ops, n - 1);
      IdsNeverReused(cfg, before, op);
      if r in Step(cfg, before, op).queue {
        RowStep(cfg, before, op, r);
        AttemptsChange(cfg, before, op, r);
      }
    }
  }

  // ----- enqueue, then read back -----

  /** An accepted enqueue onto a new or still retryable row stores exactly the requested columns:
      reading the row back gives the inputs, without the album and with the destination list
      defaulted; only the row's first scan link is kept. Unless the row had failed it is pending and
      ready at once. A row that is claimed or done keeps the payload it has. */
  lemma EnqueueStoresRequest(cfg: Config, db: Db, inputs: Inputs, priority: int, now: int)
    requires Inv(cfg, db) && !EnqueueRejected(db, inputs)
    ensures var id := EnqueueId(cfg, db, inputs);
      var db' := EnqueueTx(cfg, db, inputs, priority, now);
      && id in db'.queue
      && var (row, item) := (db'.queue[id], ToItem(id, db'.queue[id]));
         && item == WorkItem(id, item.inputs, row.status, row.priority, row.attempts, row.nextAttemptAt,
                             row.lastError, row.createdAt, row.completedAt)
         && if id in db.queue && !Retryable(db.queue[id]) then
             SamePayload(db.queue[id], db'.queue[id])
           else
             && item.inputs == inputs.(
                  track := inputs.track.(album := ""),
                  outputPaths := if inputs.outputPaths == [] then [OutputPath(inputs.outdir, inputs.filename)] else inputs.outputPaths,
                  scanResultId := item.inputs.scanResultId)
             && Retryable(db'.queue[id])
             && (if id in db.queue && db.queue[id].scanResultId.Some?
                 then db'.queue[id].scanResultId == db.queue[id].scanResultId
                 else db'.queue[id].scanResultId == LinkOf(inputs))
             && (!InStatus(db, id, Failed) ==> InStatus(db', id, Pending) && Ready(db', Seconds(now), id))
             && (id !in db.queue ==> LinkOf(item.inputs) == LinkOf(inputs) && item.status == Pending && item.attempts == 0)
  {
    LookupExact(cfg, db, cfg.norm(inputs.track.artist), cfg.norm(inputs.track.title));
  }

  /** A link that names no scan result rejects the request. */
  predicate Dangling(db: Db, inputs: Inputs) {
    0 < inputs.scanResultId && inputs.scanResultId !in db.scans
  }

  /** The columns of a row just inserted for a request. */
  predicate IsNewRow(cfg: Config, inputs: Inputs, priority: int, now: int, row: Row) {
    && row.artist == inputs.track.artist && row.title == inputs.track.title
    && row.artistKey == cfg.norm(inputs.track.artist) && row.titleKey == cfg.norm(inputs.track.title)
    && CarriesPayload(inputs, row)
    && row.scanResultId == (if 0 < inputs.scanResultId then Some(inputs.scanResultId) else None)
    && row.status == Pending && row.priority == priority && row.attempts == 0 && row.lastError == ""
    && row.createdAt == Seconds(now) && row.nextAttemptAt == Seconds(now) && row.completedAt == None
  }

  /** The requested destinations, or the single one for want of a list. */
  predicate CarriesPayload(inputs: Inputs, row: Row) {
    && row.outdir == inputs.outdir && row.filename == inputs.filename && row.sourcePath == inputs.sourcePath
    && row.outputPaths == if inputs.outputPaths == [] then [OutputPath(inputs.outdir, inputs.filename)] else inputs.outputPaths
  }

  /** The columns of a stored row that a request with its keys has met. A claimed or done row takes
      only the priority, if it is greater, and the link, if it had none; a pending or failed one also
      takes the payload. A pending row is due at once; a failed one only at webhook priority, and it
      keeps its error. Age, attempts and status stay. */
  predicate IsMetRow(inputs: Inputs, priority: int, now: int, was: Row, row: Row) {
    && row.status == was.status && row.createdAt == was.createdAt && row.attempts == was.attempts
    && SameKey(row, was) && row.completedAt == was.completedAt
    && row.priority == (if was.priority <= priority then priority else was.priority)
    && row.scanResultId == (if was.scanResultId.None? && 0 < inputs.scanResultId then Some(inputs.scanResultId) else was.scanResultId)
    && match was.status
       case Pending =>
         && row.artist == inputs.track.artist && row.title == inputs.track.title && CarriesPayload(inputs, row)
         && row.nextAttemptAt == Seconds(now) && row.lastError == ""
       case Failed =>
         && row.artist == inputs.track.artist && row.title == inputs.track.title && CarriesPayload(inputs, row)
         && row.nextAttemptAt == (if 10 <= priority then Seconds(now) else was.nextAttemptAt) && row.lastError == was.lastError
       case _ =>
         row == was.(priority := row.priority, scanResultId := row.scanResultId)
  }

  /** An enqueue, column by column: rejected for a dangling link, and otherwise it inserts a row for
      new keys or meets the row that has them, adds the link, and changes nothing else. */
  lemma EnqueueOutcome(cfg: Config, db: Db, inputs: Inputs, priority: int, now: int)
    requires Inv(cfg, db)
    ensures EnqueueRejected(db, inputs) <==> Dangling(db, inputs)
    ensures var db' := EnqueueTx(cfg, db, inputs, priority, now);
      if Dangling(db, inputs) then db' == db
      else
        var id := EnqueueId(cfg, db, inputs);
        && id in db'.queue && db'.queue == db.queue[id := db'.queue[id]]
        && (if id in db.queue then IsMetRow(inputs, priority, now, db.queue[id], db'.queue[id])
            else id == db.nextRow && IsNewRow(cfg, inputs, priority, now, db'.queue[id]))
        && HasKey(db', id, cfg.norm(inputs.track.artist), cfg.norm(inputs.track.title))
        && db' == db.(queue := db'.queue, nextRow := if id in db.queue then db.nextRow else db.nextRow + 1,
                      links := if 0 < inputs.scanResultId then db.links + {(id, inputs.scanResultId)} else db.links)
  {
    LookupExact(cfg, db, cfg.norm(inputs.track.artist), cfg.norm(inputs.track.title));
    var id := EnqueueId(cfg, db, inputs);
    if id in db.queue {
      MeetsRow(cfg, db.queue[id], inputs, priority, now);
    } else {
      InsertsRow(cfg, inputs, priority, now);
    }
    hide Refreshed, Inserted, IsMetRow, IsNewRow;
  }

  lemma InsertsRow(cfg: Config, inputs: Inputs, priority: int, now: int)
    ensures IsNewRow(cfg, inputs, priority, now, Inserted(cfg, inputs, priority, now))
  {
  }

  lemma MeetsRow(cfg: Config, row: Row, inputs: Inputs, priority: int, now: int)
    requires RowOk(cfg, row)
    ensures IsMetRow(inputs, priority, now, row, Refreshed(row, Inserted(cfg, inputs, priority, now)))
  {
  }
}

/** Every transaction keeps the tables consistent. */
module Invariant {
  import opened Selection
  import opened Schema
  import opened Transactions

  /** In a consistent database the index lookup is exact: it finds the only row with the keys. */
  lemma LookupExact(cfg: Config, db: Db, artistKey: string, titleKey: string)
    requires Inv(cfg, db)
    ensures var r := Lookup(db, artistKey, titleKey);
      && (r.Some? ==> HasKey(db, r.value, artistKey, titleKey))
      && (forall id :: HasKey(db, id, artistKey, titleKey) ==> r == Some(id))
  {
  }

  lemma InsertKeepsInv(cfg: Config, db: Db, inputs: Inputs, priority: int, now: int)
    requires Inv(cfg, db) && !EnqueueRejected(db, inputs) && EnqueueTarget(cfg, db, inputs).None?
    ensures Inv(cfg, EnqueueTx(cfg, db, inputs, priority, now))
  {
    var row := Inserted(cfg, inputs, priority, now);
    var db' := EnqueueTx(cfg, db, inputs, priority, now);
    forall id | id in db.queue
      ensures !SameKey(db.queue[id], row) && !SameKey(row, db.queue[id])
    {
      assert !HasKey(db, id, row.artistKey, row.titleKey);
    }
    assert RowsOk(cfg, db');
  }

  /** Rewriting one row, keys unchanged, and adding a link to it keeps the database consistent. */
  lemma RelinkKeepsInv(cfg: Config, db: Db, id: int, row: Row, link: Option<int>)
    requires Inv(cfg, db) && id in db.queue && RowOk(cfg, row) && SameKey(row, db.queue[id])
    requires link.Some? ==> link.value in db.scans
    requires row.scanResultId == db.queue[id].scanResultId || row.scanResultId == link
    ensures Inv(cfg, AddLink(db.(queue := db.queue[id := row]), id, link))
  {
    RewriteKeepsRows(cfg, db, id, row);
  }

  lemma RefreshKeepsInv(cfg: Config, db: Db, inputs: Inputs, priority: int, now: int)
    requires Inv(cfg, db) && !EnqueueRejected(db, inputs) && EnqueueTarget(cfg, db, inputs).Some?
    ensures Inv(cfg, EnqueueTx(cfg, db, inputs, priority, now))
  {
    var id := EnqueueTarget(cfg, db, inputs).value;
    var row := Refreshed(db.queue[id], Inserted(cfg, inputs, priority, now));
    LookupExact(cfg, db, cfg.norm(inputs.track.artist), cfg.norm(inputs.track.title));
    assert SameKey(row, db.queue[id]) && RowOk(cfg, row);
    RelinkKeepsInv(cfg, db, id, row, LinkOf(inputs));
  }

  /** Rewriting one row, keys unchanged, keeps the rows consistent. */
  lemma RewriteKeepsRows(cfg: Config, db: Db, id: int, row: Row)
    requires RowsOk(cfg, db) && id in db.queue && RowOk(cfg, row) && SameKey(row, db.queue[id])
    ensures RowsOk(cfg, db.(queue := db.queue[id := row]))
  {
  }

  /** Rewriting one row, keys and own link unchanged, keeps the database consistent. */
  lemma RewriteKeepsInv(cfg: Config, db: Db, id: int, row: Row)
    requires Inv(cfg, db) && id in db.queue && RowOk(cfg, row) && SameKey(row, db.queue[id])
    requires row.scanResultId == db.queue[id].scanResultId
    ensures Inv(cfg, db.(queue := db.queue[id := row]))
  {
  }

  lemma EnqueueKeepsInv(cfg: Config, db: Db, inputs: Inputs, priority: int, now: int)
    requires Inv(cfg, db)
    ensures Inv(cfg, EnqueueTx(cfg, db, inputs, priority, now))
  {
    if !EnqueueRejected(db, inputs) {
      if EnqueueTarget(cfg, db, inputs).Some? {
        RefreshKeepsInv(cfg, db, inputs, priority, now);
      } else {
        InsertKeepsInv(cfg, db, inputs, priority, now);
      }
    }
  }

  lemma MarkKeepsInv(cfg: Config, db: Db, ids: set<int>, status: Status)
    requires Inv(cfg, db)
    ensures Inv(cfg, MarkScans(db, ids, status))
  {
  }

  lemma DeleteRowsKeepsInv(cfg: Config, db: Db, ids: set<int>)
    requires Inv(cfg, db)
    ensures Inv(cfg, DeleteRows(db, ids))
  {
  }

  lemma DeleteScansKeepsInv(cfg: Config, db: Db, scans: set<int>)
    requires Inv(cfg, db)
    ensures Inv(cfg, DeleteScans(db, scans))
  {
    var db' := DeleteScans(db, scans);
    forall i, j | i in db'.queue && j in db'.queue && SameKey(db'.queue[i], db'.queue[j])
      ensures i == j
    {
      assert SameKey(db.queue[i], db.queue[j]);
    }
    forall id | id in db'.queue && db'.queue[id].scanResultId.Some?
      ensures (id, db'.queue[id].scanResultId.value) in db'.links
    {
      assert db'.queue[id] == db.queue[id];
    }
  }

  lemma SettleKeepsInv(cfg: Config, db: Db, id: int, cause: Option<string>, now: int)
    requires Inv(cfg, db)
    ensures Inv(cfg, CompleteTx(db, id, now))
    ensures Inv(cfg, ReleaseTx(db, id))
    ensures Inv(cfg, FailTx(cfg, db, id, cause, now))
  {
    if InStatus(db, id, Processing) {
      RewriteKeepsInv(cfg, db, id, CompletedRow(db.queue[id], now));
      MarkKeepsInv(cfg, db.(queue := db.queue[id := CompletedRow(db.queue[id], now)]), Linked(db, id), Done);
      RewriteKeepsInv(cfg, db, id, db.queue[id].(status := Pending, lastError := ""));
      RewriteKeepsInv(cfg, db, id, FailedRow(cfg, db.queue[id], cause, now));
    }
  }

  lemma RetryKeepsInv(cfg: Config, db: Db, id: int, now: int)
    requires Inv(cfg, db)
    ensures Inv(cfg, RetryTx(db, id, now))
  {
    if InStatus(db, id, Failed) {
      var row := RetriedRow(db.queue[id], now);
      RewriteKeepsInv(cfg, db, id, row);
      MarkKeepsInv(cfg, db.(queue := db.queue[id := row]), ProcessingScans(db, Linked(db, id)), Pending);
    }
  }

  lemma DequeueKeepsInv(cfg: Config, db: Db, now: int)
    requires Inv(cfg, db)
    ensures Inv(cfg, DequeueTx(db, now))
  {
  }

  lemma CancelKeepsInv(cfg: Config, db: Db, lib: int, ids: set<int>)
    requires Inv(cfg, db)
    ensures Inv(cfg, CancelRows(db, lib, ids))
  {
    var queue := map id | id in db.queue ::
      if id in ids && CancelUpdates(db, lib, id) then db.queue[id].(outputPaths := Kept(db, lib, id)) else db.queue[id];
    var mid := db.(queue := queue);
    forall i, j | i in queue && j in queue && SameKey(queue[i], queue[j])
      ensures i == j
    {
      assert SameKey(db.queue[i], db.queue[j]);
    }
    assert Inv(cfg, mid);
    DeleteRowsKeepsInv(cfg, mid, set id | id in ids && CancelDeletes(db, lib, id));
  }

  lemma FindFileExact(cfg: Config, db: Db, lib: int, path: string)
    requires Inv(cfg, db)
    ensures var r := FindFile(db, lib, path);
      && (r.Some? ==> HasFile(db, r.value, lib, path))
      && (forall s :: HasFile(db, s, lib, path) ==> r == Some(s))
  {
  }

  lemma UpsertOneKeepsInv(cfg: Config, db: Db, lib: int, res: ScanInput, force: bool)
    requires Inv(cfg, db)
    ensures Inv(cfg, UpsertOne(db, lib, res, force))
  {
    FindFileExact(cfg, db, lib, res.filePath);
    var db' := UpsertOne(db, lib, res, force);
    var found := FindFile(db, lib, res.filePath);
    var key := if found.Some? then found.value else db.nextScan;
    forall i, j | i in db'.scans && j in db'.scans && SameFile(db'.scans[i], db'.scans[j])
      ensures i == j
    {
      if i != key && j != key {
        assert SameFile(db.scans[i], db.scans[j]);
      } else if i != key {
        assert HasFile(db, i, lib, res.filePath);
      } else if j != key {
        assert HasFile(db, j, lib, res.filePath);
      }
    }
  }

  lemma {:induction false} UpsertAllKeepsInv(cfg: Config, db: Db, lib: int, results: seq<ScanInput>, force: bool)
    requires Inv(cfg, db)
    ensures Inv(cfg, UpsertAll(db, lib, results, force))
  {
    if results != [] {
      var rest := results[..|results| - 1];
      UpsertAllKeepsInv(cfg, db, lib, rest, force);
      UpsertOneKeepsInv(cfg, UpsertAll(db, lib, rest, force), lib, results[|results| - 1], force);
    }
  }

  lemma StoreKeepsInv(cfg: Config, db: Db, artist: string, title: string, album: string, lyrics: string, now: int)
    requires Inv(cfg, db)
    ensures Inv(cfg, StoreTx(cfg, db, artist, title, album, lyrics, now))
  {
  }

  lemma StepKeepsInv(cfg: Config, db: Db, op: Op)
    requires Inv(cfg, db)
    ensures Inv(cfg, Step(cfg, db, op))
  {
    hide Inv, EnqueueTx, DequeueTx, CompleteTx, ReleaseTx, FailTx, RetryTx, CancelRows, DeleteRows, DeleteScans, StoreTx, UpsertAll;
    match op
    case Enqueue(inputs, priority, now) => EnqueueKeepsInv(cfg, db, inputs, priority, now);
    case Dequeue(now) => DequeueKeepsInv(cfg, db, now);
    case Complete(id, now) => SettleKeepsInv(cfg, db, id, None, now);
    case Release(id) => SettleKeepsInv(cfg, db, id, None, 0);
    case Fail(id, cause, now) => SettleKeepsInv(cfg, db, id, cause, now);
    case Retry(id, now) => RetryKeepsInv(cfg, db, id, now);
    case Cleanup(inputs) => DeleteRowsKeepsInv(cfg, db, CleanupIds(cfg, db, inputs));
    case ClearDone => DeleteRowsKeepsInv(cfg, db, DoneIds(db));
    case Cancel(lib) => CancelKeepsInv(cfg, db, lib, Candidates(db, lib));
    case ClearLibrary(lib) => DeleteScansKeepsInv(cfg, db, ScansOf(db, lib));
    case ScanClear(lib) =>
      CancelKeepsInv(cfg, db, lib, Candidates(db, lib));
      DeleteScansKeepsInv(cfg, CancelTx(db, lib), ScansOf(CancelTx(db, lib), lib));
    case Upsert(lib, results, force) => UpsertAllKeepsInv(cfg, db, lib, results, force);
    case SetStatus(ids, text) =>
      if ids != [] && SetStatusAccepted(db, ids, text) {
        MarkKeepsInv(cfg, db, Elements(ids), text.status);
      }
    case Store(artist, title, album, lyrics, now) => StoreKeepsInv(cfg, db, artist, title, album, lyrics, now);
  }

  /** Every run of interleaved transactions keeps the tables consistent. */
  lemma {:induction false} RunKeepsInv(cfg: Config, db: Db, ops: seq<Op>)
    requires Inv(cfg, db)
    ensures Inv(cfg, Exec(cfg, db, ops))
  {
    if ops != [] {
      RunKeepsInv(cfg, db, ops[..|ops| - 1]);
      StepKeepsInv(cfg, Exec(cfg, db, ops[..|ops| - 1]), ops[|ops| - 1]);
    }
  }

  lemma EmptyIsConsistent(cfg: Config)
    ensures Inv(cfg, EMPTY)
  {
  }

  /** In particular every database that the service can reach from an empty one. */
  lemma ReachableIsConsistent(cfg: Config, ops: seq<Op>)
    ensures Inv(cfg, Exec(cfg, EMPTY, ops))
  {
    RunKeepsInv(cfg, EMPTY, ops);
  }
}

/** What rescanning does to the scan ledger, and how far a retry or a release undoes what came
    before. */
module Ledger {
  import opened Schema
  import opened Transactions
  import opened Invariant
  import opened Ordering
  import opened Runs

  // ----- rescanning -----

  predicate SamePlace(a: ScanRow, b: ScanRow, lib: int, force: bool) {
    && SameFile(a, b)
    && (!force ==> b.status == a.status)
    && (a.libraryId != lib ==> b == a)
  }

  lemma UpsertOneKeeps(db: Db, lib: int, res: ScanInput, force: bool, s: int)
    requires s in db.scans && s < db.nextScan
    ensures var db' := UpsertOne(db, lib, res, force);
      s in db'.scans && SamePlace(db.scans[s], db'.scans[s], lib, force) && db.nextScan <= db'.nextScan
  {
  }

  /** A rescan never loses or moves a scan result and never touches another library's; unless it is
      forced, it keeps every recorded status, so periodic scans cannot undo an outcome. */
  lemma {:induction false} RescanKeepsOutcomes(cfg: Config, db: Db, lib: int, results: seq<ScanInput>, force: bool, s: int)
    requires Inv(cfg, db) && s in db.scans
    ensures var db' := UpsertAll(db, lib, results, force);
      s in db'.scans && SamePlace(db.scans[s], db'.scans[s], lib, force) && s < db'.nextScan
  {
    if results != [] {
      var rest := results[..|results| - 1];
      RescanKeepsOutcomes(cfg, db, lib, rest, force, s);
      UpsertOneKeeps(UpsertAll(db, lib, rest, force), lib, results[|results| - 1], force, s);
    }
  }

  /** The scan result of a file after the first n reports: it shows the columns of res. */
  ghost predicate Shows(db: Db, lib: int, res: ScanInput) {
    var found := FindFile(db, lib, res.filePath);
    && found.Some? && found.value in db.scans
    && var scan := db.scans[found.value];
       scan == ScanRow(lib, res.filePath, res.artist, res.title, res.outdir, res.filename, scan.status)
  }

  ghost function StatusOf(db: Db, lib: int, path: string): Option<Status> {
    var found := FindFile(db, lib, path);
    if found.Some? && found.value in db.scans then Some(db.scans[found.value].status) else None
  }

  /** The status a report carries; a blank one means pending. */
  function Reported(res: ScanInput): Status {
    match res.status
    case Named(status) => status
    case _ => Pending
  }

  lemma UpsertOneShows(cfg: Config, db: Db, lib: int, res: ScanInput, force: bool)
    requires Inv(cfg, db)
    ensures var db' := UpsertOne(db, lib, res, force);
      && Shows(db', lib, res)
      && StatusOf(db', lib, res.filePath)
      == if force || StatusOf(db, lib, res.filePath).None? then Some(Reported(res)) else StatusOf(db, lib, res.filePath)
  {
    var db' := UpsertOne(db, lib, res, force);
    UpsertOneKeepsInv(cfg, db, lib, res, force);
    FindFileExact(cfg, db, lib, res.filePath);
    FindFileExact(cfg, db', lib, res.filePath);
    var found := FindFile(db, lib, res.filePath);
    assert HasFile(db', if found.Some? then found.value else db.nextScan, lib, res.filePath);
  }

  lemma UpsertOneElsewhere(cfg: Config, db: Db, lib: int, res: ScanInput, force: bool, other: ScanInput)
    requires Inv(cfg, db) && other.filePath != res.filePath
    ensures var db' := UpsertOne(db, lib, res, force);
      && (Shows(db, lib, other) ==> Shows(db', lib, other))
      && StatusOf(db', lib, other.filePath) == StatusOf(db, lib, other.filePath)
  {
    var db' := UpsertOne(db, lib, res, force);
    UpsertOneKeepsInv(cfg, db, lib, res, force);
    FindFileExact(cfg, db, lib, res.filePath);
    FindFileExact(cfg, db, lib, other.filePath);
    FindFileExact(cfg, db', lib, other.filePath);
    forall s
      ensures HasFile(db', s, lib, other.filePath) <==> HasFile(db, s, lib, other.filePath)
    {
    }
  }

  /** After a rescan every reported file has a scan result with the columns of its last report. Its
      status is the reported one if the rescan is forced, and otherwise whatever was recorded
      before, or the reported one for a file seen for the first time. */
  lemma {:induction false} RescanRecordsReports(cfg: Config, db: Db, lib: int, results: seq<ScanInput>, force: bool, k: nat)
    requires Inv(cfg, db) && k < |results|
    requires forall j :: k < j < |results| ==> results[j].filePath != results[k].filePath
    ensures var db' := UpsertAll(db, lib, results, force);
      && Shows(db', lib, results[k])
      && (force ==> StatusOf(db', lib, results[k].filePath) == Some(Reported(results[k])))
    ensures !force && (forall j :: 0 <= j < k ==> results[j].filePath != results[k].filePath) ==>
      StatusOf(UpsertAll(db, lib, results, force), lib, results[k].filePath)
      == if StatusOf(db, lib, results[k].filePath).None? then Some(Reported(results[k]))
         else StatusOf(db, lib, results[k].filePath)
  {
    hide Shows, StatusOf, Inv, UpsertOne;
    var n := |results| - 1;
    var rest, last := results[..n], results[n];
    var mid := UpsertAll(db, lib, rest, force);
    UpsertAllKeepsInv(cfg, db, lib, rest, force);
    if k < n {
      RescanRecordsReports(cfg, db, lib, rest, force, k);
      UpsertOneElsewhere(cfg, mid, lib, last, force, results[k]);
    } else {
      UpsertOneShows(cfg, mid, lib, last, force);
      if forall j :: 0 <= j < k ==> results[j].filePath != results[k].filePath {
        UnreportedKeepsStatus(cfg, db, lib, rest, force, last);
      }
    }
  }

  /** A file that is not reported keeps its status. */
  lemma {:induction false} UnreportedKeepsStatus(cfg: Config, db: Db, lib: int, results: seq<ScanInput>, force: bool, other: ScanInput)
    requires Inv(cfg, db) && forall j :: 0 <= j < |results| ==> results[j].filePath != other.filePath
    ensures StatusOf(UpsertAll(db, lib, results, force), lib, other.filePath) == StatusOf(db, lib, other.filePath)
  {
    hide StatusOf, Inv, UpsertOne;
    if results != [] {
      var rest := results[..|results| - 1];
      UnreportedKeepsStatus(cfg, db, lib, rest, force, other);
      UpsertAllKeepsInv(cfg, db, lib, rest, force);
      UpsertOneElsewhere(cfg, UpsertAll(db, lib, rest, force), lib, results[|results| - 1], force, other);
    }
  }

  /** Setting a status marks exactly the named results, or, if one of them does not exist or the
      status is not a supported one, nothing. */
  lemma SetStatusOutcome(db: Db, ids: seq<int>, text: StatusText)
    ensures var db' := SetStatusTx(db, ids, text);
      && db' == db.(scans := db'.scans) && db'.scans.Keys == db.scans.Keys
      && forall s :: s in db.scans ==>
           db'.scans[s] == if text.Named? && s in ids && (forall other :: other in ids ==> other in db.scans)
                           then db.scans[s].(status := text.status) else db.scans[s]
    ensures SetStatusAccepted(db, ids, text) <==>
      ids == [] || (text.Named? && forall other :: other in ids ==> other in db.scans)
  {
  }

  // ----- what one call undoes -----

  /** Releasing a row right after claiming it restores the tables exactly when the row was pending;
      a failed row comes back pending, without its error but with its attempts and its time. */
  lemma ReleaseUndoesClaim(cfg: Config, db: Db, now: int, r: int)
    requires Inv(cfg, db) && NextReady(db, Seconds(now)) == Some(r)
    ensures r in db.queue
    ensures ReleaseTx(DequeueTx(db, now), r) == db <==> db.queue[r].status == Pending
    ensures ReleaseTx(DequeueTx(db, now), r) == db.(queue := db.queue[r := db.queue[r].(status := Pending, lastError := "")])
  {
    NextIsUnique(db, Seconds(now));
    assert IsNext(db, Seconds(now), r);
    var back := ReleaseTx(DequeueTx(db, now), r);
    assert back.queue == db.queue[r := db.queue[r].(status := Pending, lastError := "")];
    if db.queue[r].status == Pending {
      assert db.queue[r := db.queue[r]] == db.queue;
    } else {
      assert back.queue[r] != db.queue[r];
    }
  }

  /** A retry makes a failed row ready at once with its payload and a clean slate, and hands back to
      the scanner exactly the linked results still marked processing. */
  lemma RetryRestarts(cfg: Config, db: Db, r: int, now: int)
    requires Inv(cfg, db) && InStatus(db, r, Failed)
    ensures var db' := RetryTx(db, r, now);
      && Ready(db', Seconds(now), r)
      && db' == db.(queue := db.queue[r := db.queue[r].(status := Pending, attempts := 0, nextAttemptAt := Seconds(now), lastError := "")],
                    scans := db'.scans)
      && db'.scans.Keys == db.scans.Keys
      && forall s :: s in db.scans ==>
           db'.scans[s] == if (r, s) in db.links && db.scans[s].status == Processing
                           then db.scans[s].(status := Pending) else db.scans[s]
  {
    forall s | s in db.scans
      ensures s in ProcessingScans(db, Linked(db, r)) <==> (r, s) in db.links && db.scans[s].status == Processing
    {
      assert s in Linked(db, r) <==> (r, s) in db.links;
    }
  }

  /** A cleanup deletes exactly the pending or failed row with the keys, if there is one, and its
      links. So the next accepted enqueue of them starts from a new row unless it meets one that is
      claimed or done. */
  lemma CleanupFreesTheKeys(cfg: Config, db: Db, inputs: Inputs)
    requires Inv(cfg, db)
    ensures var db' := CleanupTx(cfg, db, inputs);
      && (forall id :: id in db'.queue <==>
            && id in db.queue
            && !(HasKey(db, id, cfg.norm(inputs.track.artist), cfg.norm(inputs.track.title))
                 && (db.queue[id].status == Pending || db.queue[id].status == Failed)))
      && (forall id :: id in db'.queue ==> db'.queue[id] == db.queue[id])
      && (forall l :: l in db'.links <==> l in db.links && l.0 in db'.queue)
    ensures var db' := CleanupTx(cfg, db, inputs);
      var target := EnqueueTarget(cfg, db', inputs);
      && (target.Some? ==>
            && target.value in db'.queue
            && (db'.queue[target.value].status == Processing || db'.queue[target.value].status == Done))
      && (target.None? <==> EnqueueTarget(cfg, db, inputs).None? || db'.queue != db.queue)
  {
    var artistKey, titleKey := cfg.norm(inputs.track.artist), cfg.norm(inputs.track.title);
    var db' := CleanupTx(cfg, db, inputs);
    DeleteRowsKeepsInv(cfg, db, CleanupIds(cfg, db, inputs));
    LookupExact(cfg, db, artistKey, titleKey);
    LookupExact(cfg, db', artistKey, titleKey);
    if EnqueueTarget(cfg, db, inputs).Some? {
      var id := EnqueueTarget(cfg, db, inputs).value;
      assert HasKey(db, id, artistKey, titleKey);
      assert HasKey(db', id, artistKey, titleKey) <==> id !in CleanupIds(cfg, db, inputs);
    }
  }

  // ----- cleared keys -----

  /** Clearing done rows removes exactly those, and frees their keys: a later enqueue of them starts
      from a new row, where before it would have changed nothing but priority and link. */
  lemma ClearDoneReopensKeys(cfg: Config, db: Db, id: int, inputs: Inputs)
    requires Inv(cfg, db) && HasKey(db, id, cfg.norm(inputs.track.artist), cfg.norm(inputs.track.title))
    ensures var db' := ClearDoneTx(db);
      && Find(db', id) == (if InStatus(db, id, Done) then None else Some(db.queue[id]))
      && EnqueueTarget(cfg, db, inputs) == Some(id)
      && EnqueueTarget(cfg, db', inputs) == (if InStatus(db, id, Done) then None else Some(id))
  {
    var artistKey, titleKey := cfg.norm(inputs.track.artist), cfg.norm(inputs.track.title);
    DeleteRowsKeepsInv(cfg, db, DoneIds(db));
    LookupExact(cfg, db, artistKey, titleKey);
    LookupExact(cfg, ClearDoneTx(db), artistKey, titleKey);
    assert HasKey(ClearDoneTx(db), id, artistKey, titleKey) <==> !InStatus(db, id, Done);
  }

  // ----- the place of a new row in the claim order -----

  /** With a clock that has not gone back, a new row is claimed after exactly the rows of at least
      its priority: webhook work overtakes the scan backlog, and equal priorities are first in,
      first out. */
  lemma NewRowTakesItsPlace(cfg: Config, db: Db, inputs: Inputs, priority: int, now: int, other: int)
    requires Inv(cfg, db) && !EnqueueRejected(db, inputs) && EnqueueTarget(cfg, db, inputs).None?
    requires other in db.queue && db.queue[other].createdAt <= Seconds(now)
    ensures var (id, db') := (EnqueueId(cfg, db, inputs), EnqueueTx(cfg, db, inputs, priority, now));
      && (Before(db', other, id) <==> db.queue[other].priority >= priority)
      && (Before(db', id, other) <==> db.queue[other].priority < priority)
  {
  }
}

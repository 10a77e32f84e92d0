/** The bridge from pending scan results to the work queue. */
module Enqueueing {
  import opened Selection
  import opened Schema
  import opened Transactions
  import opened Invariant
  import opened Cache
  import opened Tables
  import Runs

  /** The two path helpers, left abstract: the directory of a path, and its last element without
      the extension. */
  datatype PathLib = PathLib(dir: string -> string, stem: string -> string)

  /** The request for one scan result. */
  function ScanInputs(paths: PathLib, res: Listed): (r: Result<Inputs>)
    ensures r.Err? <==> res.scan.outdir == "" && res.scan.filename == "" && res.scan.filePath == ""
    ensures r.Ok? ==>
      && r.value.scanResultId == res.id && r.value.sourcePath == res.scan.filePath
      && r.value.track == Track(res.scan.artist, res.scan.title, "")
      && r.value.outputPaths == [OutputPath(r.value.outdir, r.value.filename)]
      && (res.scan.outdir != "" ==> r.value.outdir == res.scan.outdir)
      && (res.scan.filename != "" ==> r.value.filename == res.scan.filename)
  {
    var scan := res.scan;
    var outdir := if scan.outdir == "" && scan.filePath != "" then paths.dir(scan.filePath) else scan.outdir;
    var filename := if scan.filename == "" && scan.filePath != "" then paths.stem(scan.filePath) + ".lrc" else scan.filename;
    if scan.outdir == "" && scan.filename == "" && scan.filePath == "" then
      Err(MissingDestination)
    else
      Ok(Inputs(Track(scan.artist, scan.title, ""), outdir, filename, scan.filePath, [OutputPath(outdir, filename)], res.id))
  }

  /** Which calls fail while one result is handled, and what the clock reads. */
  datatype Faults = Faults(canceled: bool, lookup: bool, markDone: bool, reserve: bool, enqueue: bool, restore: bool, now: int)

  /** How the handling of one result ends. */
  datatype Handling = Handled | Restored | Stuck

  /** How a whole pass ends: `at` results were handled before it stopped. */
  datatype Pass = Finished | Stopped(at: nat, handling: Handling)

  ghost predicate KeyCached(cfg: Config, db: Db, res: Listed) {
    Cached(db, cfg.norm(res.scan.artist), cfg.norm(res.scan.title))
  }

  function Reserve(db: Db, res: Listed): Db {
    SetStatusTx(db, [res.id], Named(Processing))
  }

  ghost function HandledTx(cfg: Config, paths: PathLib, db: Db, res: Listed, priority: int, now: int): Db {
    if KeyCached(cfg, db, res) then SetStatusTx(db, [res.id], Named(Done))
    else match ScanInputs(paths, res)
      case Ok(inputs) => EnqueueTx(cfg, Reserve(db, res), inputs, priority, now)
      case Err(_) => db
  }

  /** Reserving a pending result and restoring it changes nothing. */
  lemma RestoreUndoesReserve(db: Db, res: Listed)
    requires res.id in db.scans && db.scans[res.id].status == Pending
    ensures SetStatusTx(Reserve(db, res), [res.id], Named(Pending)) == db
  {
  }

  lemma MarkOne(db: Db, s: int, status: Status)
    requires s in db.scans
    ensures SetStatusAccepted(db, [s], Named(status))
    ensures SetStatusTx(db, [s], Named(status)) == db.(scans := db.scans[s := db.scans[s].(status := status)])
  {
  }

  // ----- what is asked of the row -----

  /** The row asks for the scan result's own file: its source is the file, and its one destination
      is the recorded directory and file name, where a missing one follows from the file's path. */
  predicate Requests(paths: PathLib, scan: ScanRow, row: Row) {
    && row.artist == scan.artist && row.title == scan.title && row.sourcePath == scan.filePath
    && row.outputPaths == [OutputPath(row.outdir, row.filename)]
    && (scan.outdir != "" ==> row.outdir == scan.outdir)
    && (scan.outdir == "" && scan.filePath != "" ==> row.outdir == paths.dir(scan.filePath))
    && (scan.outdir == "" && scan.filePath == "" ==> row.outdir == "")
    && (scan.filename != "" ==> row.filename == scan.filename)
    && (scan.filename == "" && scan.filePath != "" ==> row.filename == paths.stem(scan.filePath) + ".lrc")
    && (scan.filename == "" && scan.filePath == "" ==> row.filename == "")
  }

  /** What becomes of the row that a result lands on: a new row, or one that was pending or failed,
      asks for the result's file; a claimed or done one keeps what it has. A new row has the given
      priority, and an old one at least that. */
  predicate Serves(paths: PathLib, scan: ScanRow, priority: int, was: Option<Row>, row: Row) {
    match was
    case None => Requests(paths, scan, row) && row.priority == priority && row.status == Pending
    case Some(held) =>
      && row.priority == (if held.priority <= priority then priority else held.priority)
      && row.status == held.status
      && (if held.status == Pending || held.status == Failed then Requests(paths, scan, row)
          else row == held.(priority := row.priority, scanResultId := row.scanResultId))
  }

  /** The row has the keys of an uncached result. */
  ghost predicate WantedBy(cfg: Config, before: Db, res: Listed, row: Row) {
    && !KeyCached(cfg, before, res)
    && row.artistKey == cfg.norm(res.scan.artist) && row.titleKey == cfg.norm(res.scan.title)
  }

  lemma EnqueueLandsOn(cfg: Config, db: Db, inputs: Inputs, priority: int, now: int, id: int)
    requires Inv(cfg, db) && !EnqueueRejected(db, inputs)
    requires HasKey(EnqueueTx(cfg, db, inputs, priority, now), id, cfg.norm(inputs.track.artist), cfg.norm(inputs.track.title))
    ensures var excluded := Inserted(cfg, inputs, priority, now);
      EnqueueTx(cfg, db, inputs, priority, now).queue[id] == if id in db.queue then Refreshed(db.queue[id], excluded) else excluded
  {
    hide Refreshed, Inserted;
    var (artistKey, titleKey) := (cfg.norm(inputs.track.artist), cfg.norm(inputs.track.title));
    LookupExact(cfg, db, artistKey, titleKey);
    assert id == EnqueueId(cfg, db, inputs) || HasKey(db, id, artistKey, titleKey);
  }

  lemma UpsertServes(cfg: Config, paths: PathLib, res: Listed, priority: int, now: int, was: Option<Row>)
    requires ScanInputs(paths, res).Ok? && (was.Some? ==> RowOk(cfg, was.value))
    ensures var excluded := Inserted(cfg, ScanInputs(paths, res).value, priority, now);
      Serves(paths, res.scan, priority, was, if was.Some? then Refreshed(was.value, excluded) else excluded)
  {
  }

  lemma EnqueueServes(cfg: Config, paths: PathLib, db: Db, res: Listed, priority: int, now: int, id: int)
    requires Inv(cfg, db) && res.id in db.scans && ScanInputs(paths, res).Ok?
    ensures var db' := EnqueueTx(cfg, db, ScanInputs(paths, res).value, priority, now);
      HasKey(db', id, cfg.norm(res.scan.artist), cfg.norm(res.scan.title)) ==>
        Serves(paths, res.scan, priority, Runs.Find(db, id), db'.queue[id])
  {
    hide EnqueueTx, Refreshed, Inserted, Serves;
    var inputs := ScanInputs(paths, res).value;
    if HasKey(EnqueueTx(cfg, db, inputs, priority, now), id, cfg.norm(res.scan.artist), cfg.norm(res.scan.title)) {
      EnqueueLandsOn(cfg, db, inputs, priority, now, id);
      UpsertServes(cfg, paths, res, priority, now, Runs.Find(db, id));
    }
  }

  /** An uncached result is served by the row with its keys. */
  lemma HandledServes(cfg: Config, paths: PathLib, db: Db, res: Listed, priority: int, now: int, id: int)
    requires Inv(cfg, db) && res.id in db.scans && ScanInputs(paths, res).Ok?
    ensures var db' := HandledTx(cfg, paths, db, res, priority, now);
      id in db'.queue && WantedBy(cfg, db, res, db'.queue[id]) ==>
        Serves(paths, res.scan, priority, Runs.Find(db, id), db'.queue[id])
  {
    hide Inv, EnqueueTx, KeyCached, Serves, ScanInputs;
    MarkOne(db, res.id, Processing);
    MarkKeepsInv(cfg, db, Elements([res.id]), Processing);
    EnqueueServes(cfg, paths, Reserve(db, res), res, priority, now, id);
  }

  // ----- what a handled result looks like -----

  /** A row with these keys that is not done. */
  ghost predicate LiveRow(db: Db, r: int, artistKey: string, titleKey: string) {
    HasKey(db, r, artistKey, titleKey) && db.queue[r].status != Done
  }

  ghost predicate LinkedToLiveRow(cfg: Config, db: Db, res: Listed) {
    exists r :: (r, res.id) in db.links && LiveRow(db, r, cfg.norm(res.scan.artist), cfg.norm(res.scan.title))
  }

  /** Either done, with the key cached and no link added; or processing, and linked to a row with
      its key that is not done. */
  ghost predicate Settled(cfg: Config, before: Db, db: Db, res: Listed) {
    && res.id in db.scans
    && if KeyCached(cfg, db, res)
       then db.scans[res.id] == res.scan.(status := Done) && forall r :: (r, res.id) in db.links <==> (r, res.id) in before.links
       else db.scans[res.id] == res.scan.(status := Processing) && LinkedToLiveRow(cfg, db, res)
  }

  /** No done row has an uncached key, so an uncached result lands on a live row. */
  lemma HandlingSettles(cfg: Config, paths: PathLib, before: Db, db: Db, res: Listed, priority: int, now: int)
    requires Inv(cfg, db) && DoneCached(db) && IsPending(db, res.scan.libraryId, res)
    requires KeyCached(cfg, db, res) || ScanInputs(paths, res).Ok?
    requires forall r :: (r, res.id) in db.links <==> (r, res.id) in before.links
    ensures var db' := HandledTx(cfg, paths, db, res, priority, now);
      && Inv(cfg, db') && DoneCached(db') && db'.cache == db.cache
      && Settled(cfg, before, db', res)
      && forall r :: r in db'.queue && WantedBy(cfg, db, res, db'.queue[r]) ==>
           Serves(paths, res.scan, priority, Runs.Find(db, r), db'.queue[r])
  {
    hide Serves, Settled;
    var db' := HandledTx(cfg, paths, db, res, priority, now);
    HandlingIsSettled(cfg, paths, before, db, res, priority, now);
    if !KeyCached(cfg, db, res) {
      forall r | r in db'.queue && WantedBy(cfg, db, res, db'.queue[r])
        ensures Serves(paths, res.scan, priority, Runs.Find(db, r), db'.queue[r])
      {
        HandledServes(cfg, paths, db, res, priority, now, r);
      }
    }
  }

  lemma HandlingIsSettled(cfg: Config, paths: PathLib, before: Db, db: Db, res: Listed, priority: int, now: int)
    requires Inv(cfg, db) && DoneCached(db) && IsPending(db, res.scan.libraryId, res)
    requires KeyCached(cfg, db, res) || ScanInputs(paths, res).Ok?
    requires forall r :: (r, res.id) in db.links <==> (r, res.id) in before.links
    ensures var db' := HandledTx(cfg, paths, db, res, priority, now);
      && Inv(cfg, db') && DoneCached(db') && db'.cache == db.cache
      && Settled(cfg, before, db', res)
  {
    var db' := HandledTx(cfg, paths, db, res, priority, now);
    if KeyCached(cfg, db, res) {
      MarkOne(db, res.id, Done);
      MarkKeepsInv(cfg, db, Elements([res.id]), Done);
      SameRowsDoneCached(db, db');
      SameCached(cfg, db, db', res);
    } else {
      var inputs := ScanInputs(paths, res).value;
      var mid := Reserve(db, res);
      MarkOne(db, res.id, Processing);
      MarkKeepsInv(cfg, db, Elements([res.id]), Processing);
      SameRowsDoneCached(db, mid);
      SameCached(cfg, db, mid, res);
      EnqueueLandsLive(cfg, mid, res, inputs, priority, now);
      SameCached(cfg, mid, db', res);
    }
  }

  lemma SameCached(cfg: Config, db: Db, db': Db, res: Listed)
    requires db.cache == db'.cache
    ensures KeyCached(cfg, db, res) == KeyCached(cfg, db', res)
  {
    SameCache(db, db', cfg.norm(res.scan.artist), cfg.norm(res.scan.title));
  }

  lemma SameRowsDoneCached(db: Db, db': Db)
    requires DoneCached(db) && db'.queue == db.queue && db'.cache == db.cache
    ensures DoneCached(db')
  {
    forall id | InStatus(db', id, Done)
      ensures Cached(db', db'.queue[id].artistKey, db'.queue[id].titleKey)
    {
      assert InStatus(db, id, Done);
      SameCache(db, db', db.queue[id].artistKey, db.queue[id].titleKey);
    }
  }

  lemma EnqueueLandsLive(cfg: Config, db: Db, res: Listed, inputs: Inputs, priority: int, now: int)
    requires Inv(cfg, db) && DoneCached(db) && !KeyCached(cfg, db, res) && res.id in db.scans
    requires inputs.track == Track(res.scan.artist, res.scan.title, "") && inputs.scanResultId == res.id
    ensures var db' := EnqueueTx(cfg, db, inputs, priority, now);
      && Inv(cfg, db') && DoneCached(db') && db'.cache == db.cache && db'.scans == db.scans
      && LinkedToLiveRow(cfg, db', res)
  {
    var (artistKey, titleKey) := (cfg.norm(res.scan.artist), cfg.norm(res.scan.title));
    EnqueueKeepsInv(cfg, db, inputs, priority, now);
    LookupExact(cfg, db, artistKey, titleKey);
    var db' := EnqueueTx(cfg, db, inputs, priority, now);
    var r := EnqueueId(cfg, db, inputs);
    if r in db.queue {
      assert !InStatus(db, r, Done);
    }
    assert (r, res.id) in db'.links && LiveRow(db', r, artistKey, titleKey);
    EnqueueKeepsDone(cfg, db, inputs, priority, now);
  }

  /** An enqueue creates no done row and changes the keys of none. */
  lemma EnqueueKeepsDone(cfg: Config, db: Db, inputs: Inputs, priority: int, now: int)
    requires Inv(cfg, db) && DoneCached(db)
    ensures DoneCached(EnqueueTx(cfg, db, inputs, priority, now))
  {
    LookupExact(cfg, db, cfg.norm(inputs.track.artist), cfg.norm(inputs.track.title));
    var db' := EnqueueTx(cfg, db, inputs, priority, now);
    forall id | InStatus(db', id, Done)
      ensures Cached(db', db'.queue[id].artistKey, db'.queue[id].titleKey)
    {
      assert InStatus(db, id, Done) && SameKey(db.queue[id], db'.queue[id]);
      SameCache(db, db', db.queue[id].artistKey, db.queue[id].titleKey);
    }
  }

  /** Scan result s keeps its columns and links, and no row stops being live or changes keys. */
  ghost predicate Undisturbed(db: Db, db': Db, s: int) {
    && db'.cache == db.cache
    && (s in db.scans <==> s in db'.scans)
    && (s in db.scans ==> db'.scans[s] == db.scans[s])
    && (forall r :: (r, s) in db'.links <==> (r, s) in db.links)
    && (forall r :: r in db.queue && db.queue[r].status != Done ==>
          r in db'.queue && db'.queue[r].status != Done && SameKey(db.queue[r], db'.queue[r]))
  }

  lemma UndisturbedStaysSettled(cfg: Config, before: Db, db: Db, db': Db, other: Listed)
    requires Undisturbed(db, db', other.id) && Settled(cfg, before, db, other)
    ensures Settled(cfg, before, db', other)
  {
    SameCached(cfg, db, db', other);
    if LinkedToLiveRow(cfg, db, other) {
      var (artistKey, titleKey) := (cfg.norm(other.scan.artist), cfg.norm(other.scan.title));
      var r :| (r, other.id) in db.links && LiveRow(db, r, artistKey, titleKey);
      assert (r, other.id) in db'.links && LiveRow(db', r, artistKey, titleKey);
    }
  }

  lemma EnqueueLeavesOthers(cfg: Config, db: Db, inputs: Inputs, priority: int, now: int, s: int)
    requires Inv(cfg, db) && inputs.scanResultId != s && 0 < inputs.scanResultId
    ensures Undisturbed(db, EnqueueTx(cfg, db, inputs, priority, now), s)
  {
    LookupExact(cfg, db, cfg.norm(inputs.track.artist), cfg.norm(inputs.track.title));
  }

  /** Handling one result does not disturb another. */
  lemma HandlingLeavesOthers(cfg: Config, paths: PathLib, db: Db, res: Listed, priority: int, now: int, s: int)
    requires Inv(cfg, db) && res.id in db.scans && res.id != s
    ensures Undisturbed(db, HandledTx(cfg, paths, db, res, priority, now), s)
  {
    MarkOne(db, res.id, Done);
    MarkOne(db, res.id, Processing);
    MarkKeepsInv(cfg, db, Elements([res.id]), Processing);
    if ScanInputs(paths, res).Ok? {
      EnqueueLeavesOthers(cfg, Reserve(db, res), ScanInputs(paths, res).value, priority, now, s);
    }
  }

  // ----- the pass -----

  class Enqueuer {
    const repo: Repo
    const cache: CacheRepo
    const queue: DBQueue
    const paths: PathLib
    const priority: int

    constructor (repo: Repo, cache: CacheRepo, queue: DBQueue, paths: PathLib, priority: int)
      ensures this.repo == repo && this.cache == cache && this.queue == queue
      ensures this.paths == paths && this.priority == priority
    {
      this.repo, this.cache, this.queue := repo, cache, queue;
      this.paths, this.priority := paths, priority;
    }

    /** The three repositories share one database and one key normalizer. */
    ghost predicate Valid()
      reads queue.db
    {
      && repo.db == queue.db && cache.db == queue.db
      && repo.cfg == cache.cfg == queue.Cfg() && cache.norm == queue.norm
      && queue.Valid()
    }

    /** Look up, then either mark done or reserve and enqueue; a failed enqueue gives the
        reservation back. */
    method HandleOne(res: Listed, f: Faults) returns (h: Handling)
      requires Valid() && IsPending(queue.db.State(), res.scan.libraryId, res)
      modifies queue.db
      ensures Valid()
      ensures h == Handled ==>
        && (KeyCached(queue.Cfg(), old(queue.db.State()), res) || ScanInputs(paths, res).Ok?)
        && queue.db.State() == HandledTx(queue.Cfg(), paths, old(queue.db.State()), res, priority, f.now)
      ensures h == Restored ==> queue.db.State() == old(queue.db.State())
      ensures h == Stuck ==> f.restore && queue.db.State() == Reserve(old(queue.db.State()), res)
      ensures f == Faults(false, false, false, false, false, false, f.now) && h != Handled ==> ScanInputs(paths, res).Err?
    {
      ghost var before := queue.db.State();
      RestoreUndoesReserve(before, res);
      MarkOne(before, res.id, Done);
      MarkOne(before, res.id, Processing);
      MarkOne(Reserve(before, res), res.id, Pending);
      if f.canceled || f.lookup {
        return Restored;
      }
      var hit := cache.LookupFallback(res.scan.artist, res.scan.title);
      if hit.Ok? {
        if f.markDone {
          return Restored;
        }
        var _ := repo.SetStatus([res.id], Named(Done));
        return Handled;
      }
      if f.reserve {
        return Restored;
      }
      var _ := repo.SetStatus([res.id], Named(Processing));
      var inputs := ScanInputs(paths, res);
      if inputs.Ok? && !f.enqueue {
        var _ := queue.Enqueue(inputs.value, priority, f.now);
        return Handled;
      }
      if f.restore {
        return Stuck;
      }
      var _ := repo.SetStatus([res.id], Named(Pending));
      return Restored;
    }

    /** A pass that no worker interleaves. If it finishes, every formerly pending result of the
        library is settled. If it stops, the earlier ones are settled, the later ones are still
        pending and unlinked as before, and so is the failing one unless giving its reservation
        back failed too. A row whose keys uncached handled results have serves the last of them; the
        cache, every other result and every other row are left alone. */
    method EnqueuePending(lib: int, faults: nat -> Faults) returns (pass: Pass, ghost results: seq<Listed>)
      requires Valid() && DoneCached(queue.db.State())
      modifies queue.db
      ensures Valid() && DoneCached(queue.db.State()) && queue.db.cache == old(queue.db.cache)
      ensures ExactlyPending(old(queue.db.State()), lib, results)
      ensures PassLeaves(queue.Cfg(), old(queue.db.State()), queue.db.State(), results, pass)
      ensures RowsServe(queue.Cfg(), paths, priority, old(queue.db.State()), queue.db.State(), results,
                        if pass.Finished? then |results| else pass.at)
      ensures pass.Stopped? && pass.handling == Stuck ==> faults(pass.at).restore
    {
      hide HandledTx, Settled, PassLeaves, Progress, Untouched, DoneCached, Inv, ScanInputs, KeyCached, ExactlyPending, OnlyWantedRows,
           RowsServe;
      ghost var before := queue.db.State();
      var listed := repo.ListPendingByLibrary(lib);
      results := listed;
      ListedIsExact(before, lib, listed);
      StartProgress(queue.Cfg(), before, listed);
      StartServes(queue.Cfg(), paths, priority, before, listed);
      for k := 0 to |listed|
        invariant Valid() && DoneCached(queue.db.State()) && queue.db.cache == before.cache
        invariant Progress(queue.Cfg(), before, queue.db.State(), listed, k)
        invariant RowsServe(queue.Cfg(), paths, priority, before, queue.db.State(), listed, k)
      {
        ghost var db := queue.db.State();
        NextIsPending(queue.Cfg(), before, db, lib, listed, k);
        var h := HandleOne(listed[k], faults(k));
        if h != Handled {
          StopLeaves(queue.Cfg(), before, db, queue.db.State(), lib, listed, k, h);
          SameRowsServe(queue.Cfg(), paths, priority, before, db, queue.db.State(), listed, k);
          return Stopped(k, h), results;
        }
        HandlingSettles(queue.Cfg(), paths, before, db, listed[k], priority, faults(k).now);
        HandledOneMore(queue.Cfg(), paths, before, db, listed, k, priority, faults(k).now);
        OnlyWantedSoFar(queue.Cfg(), before, db, listed, k);
        HandledOneMoreServe(queue.Cfg(), paths, before, db, listed, k, priority, faults(k).now);
      }
      FinishLeaves(queue.Cfg(), before, queue.db.State(), listed);
      return Finished, results;
    }
  }

  /** One of the first n results has these keys, and they are not cached. */
  ghost predicate Wanted(cfg: Config, before: Db, results: seq<Listed>, n: nat, row: Row)
    requires n <= |results|
  {
    exists k :: 0 <= k < n && WantedBy(cfg, before, results[k], row)
  }

  /** Rows persist with their keys, and every row that is new or changed is wanted by one of the
      first n results: nothing is enqueued for a cached one. */
  ghost predicate OnlyWantedRows(cfg: Config, before: Db, db: Db, results: seq<Listed>, n: nat)
    requires n <= |results|
  {
    && (forall id :: id in before.queue ==> id in db.queue && SameKey(before.queue[id], db.queue[id]))
    && (forall id :: id in db.queue && !Wanted(cfg, before, results, n, db.queue[id]) ==>
          id in before.queue && db.queue[id] == before.queue[id])
  }

  /** An enqueue keeps every row with its keys, and touches none with keys other than its own. */
  lemma EnqueueTouchesItsKeys(cfg: Config, db: Db, inputs: Inputs, priority: int, now: int)
    requires Inv(cfg, db)
    ensures var db' := EnqueueTx(cfg, db, inputs, priority, now);
      && (forall id :: id in db.queue ==> id in db'.queue && SameKey(db.queue[id], db'.queue[id]))
      && (forall id :: id in db'.queue && !HasKey(db', id, cfg.norm(inputs.track.artist), cfg.norm(inputs.track.title)) ==>
            id in db.queue && db'.queue[id] == db.queue[id])
  {
    LookupExact(cfg, db, cfg.norm(inputs.track.artist), cfg.norm(inputs.track.title));
  }

  /** Handling a cached result changes no row, and handling another only rows with its keys. */
  lemma HandledRows(cfg: Config, paths: PathLib, db: Db, res: Listed, priority: int, now: int)
    requires Inv(cfg, db) && res.id in db.scans
    ensures var db' := HandledTx(cfg, paths, db, res, priority, now);
      && (forall id :: id in db.queue ==> id in db'.queue && SameKey(db.queue[id], db'.queue[id]))
      && (forall id :: id in db'.queue && !WantedBy(cfg, db, res, db'.queue[id]) ==>
            id in db.queue && db'.queue[id] == db.queue[id])
  {
    hide Inv, EnqueueTx, KeyCached;
    MarkOne(db, res.id, Done);
    MarkOne(db, res.id, Processing);
    MarkKeepsInv(cfg, db, Elements([res.id]), Processing);
    if ScanInputs(paths, res).Ok? {
      EnqueueTouchesItsKeys(cfg, Reserve(db, res), ScanInputs(paths, res).value, priority, now);
    }
  }

  lemma OneMoreWanted(cfg: Config, before: Db, results: seq<Listed>, n: nat, row: Row)
    requires n < |results|
    ensures Wanted(cfg, before, results, n + 1, row) <==> Wanted(cfg, before, results, n, row) || WantedBy(cfg, before, results[n], row)
  {
  }

  lemma HandledOneMoreRows(cfg: Config, paths: PathLib, before: Db, db: Db, results: seq<Listed>, k: nat, priority: int, now: int)
    requires Inv(cfg, db) && k < |results| && results[k].id in db.scans && db.cache == before.cache
    requires OnlyWantedRows(cfg, before, db, results, k)
    ensures OnlyWantedRows(cfg, before, HandledTx(cfg, paths, db, results[k], priority, now), results, k + 1)
  {
    var db' := HandledTx(cfg, paths, db, results[k], priority, now);
    HandledRows(cfg, paths, db, results[k], priority, now);
    hide HandledTx, WantedBy, Wanted;
    SameCached(cfg, db, before, results[k]);
    forall id | id in db'.queue && !Wanted(cfg, before, results, k + 1, db'.queue[id])
      ensures id in before.queue && db'.queue[id] == before.queue[id]
    {
      OneMoreWanted(cfg, before, results, k, db'.queue[id]);
      WantedEither(cfg, before, db, results[k], db'.queue[id]);
    }
  }

  lemma WantedEither(cfg: Config, before: Db, db: Db, res: Listed, row: Row)
    requires db.cache == before.cache
    ensures WantedBy(cfg, before, res, row) == WantedBy(cfg, db, res, row)
  {
    SameCached(cfg, db, before, res);
  }

  /** Result k is the last of the first n that want this row. */
  ghost predicate LastWanting(cfg: Config, before: Db, results: seq<Listed>, n: nat, k: nat, row: Row)
    requires n <= |results|
  {
    && k < n && WantedBy(cfg, before, results[k], row)
    && forall j: nat :: k < j < n ==> !WantedBy(cfg, before, results[j], row)
  }

  /** A row keeps its status while it serves one result after another. */
  predicate Grown(priority: int, was: Option<Row>, row: Row) {
    match was
    case None => row.priority == priority && row.status == Pending
    case Some(held) =>
      && (row.priority == held.priority || (held.priority <= priority && row.priority == priority))
      && row.status == held.status
      && (Retryable(held) || row == held.(priority := row.priority, scanResultId := row.scanResultId))
  }

  /** If any of the first n results want the row, it serves the last of them. */
  ghost predicate RowServes(cfg: Config, paths: PathLib, priority: int, before: Db, results: seq<Listed>, n: nat,
                            was: Option<Row>, row: Row)
    requires n <= |results|
  {
    && Grown(priority, was, row)
    && forall k: nat :: k < n && LastWanting(cfg, before, results, n, k, row) ==> Serves(paths, results[k].scan, priority, was, row)
  }

  ghost predicate RowsServe(cfg: Config, paths: PathLib, priority: int, before: Db, db: Db, results: seq<Listed>, n: nat)
    requires n <= |results|
  {
    forall id :: id in db.queue ==> RowServes(cfg, paths, priority, before, results, n, Runs.Find(before, id), db.queue[id])
  }

  lemma ServesOnceMore(paths: PathLib, scan: ScanRow, priority: int, first: Option<Row>, second: Option<Row>, row: Row)
    requires Serves(paths, scan, priority, second, row)
    requires if second.Some? then Grown(priority, first, second.value) else first.None?
    ensures Serves(paths, scan, priority, first, row) && Grown(priority, first, row)
  {
  }

  /** Row by row: handling result n leaves alone a row that it does not want, and otherwise makes it
      serve result n. */
  lemma ServesNext(cfg: Config, paths: PathLib, priority: int, before: Db, results: seq<Listed>, n: nat,
                   first: Option<Row>, second: Option<Row>, row: Row)
    requires n < |results| && (first.Some? ==> second.Some?)
    requires second.Some? ==> RowServes(cfg, paths, priority, before, results, n, first, second.value)
    requires if WantedBy(cfg, before, results[n], row) then Serves(paths, results[n].scan, priority, second, row)
             else second == Some(row)
    ensures RowServes(cfg, paths, priority, before, results, n + 1, first, row)
  {
    hide WantedBy, Serves, Grown;
    if WantedBy(cfg, before, results[n], row) {
      ServesOnceMore(paths, results[n].scan, priority, first, second, row);
    }
    forall k: nat | k < n + 1 && LastWanting(cfg, before, results, n + 1, k, row)
      ensures Serves(paths, results[k].scan, priority, first, row)
    {
      if k < n {
        assert !WantedBy(cfg, before, results[n], row);
        assert LastWanting(cfg, before, results, n, k, row);
      }
    }
  }

  lemma HandledOneMoreServe(cfg: Config, paths: PathLib, before: Db, db: Db, results: seq<Listed>, n: nat, priority: int, now: int)
    requires Inv(cfg, db) && n < |results| && results[n].id in db.scans && db.cache == before.cache
    requires KeyCached(cfg, db, results[n]) || ScanInputs(paths, results[n]).Ok?
    requires OnlyWantedRows(cfg, before, db, results, n) && RowsServe(cfg, paths, priority, before, db, results, n)
    ensures RowsServe(cfg, paths, priority, before, HandledTx(cfg, paths, db, results[n], priority, now), results, n + 1)
  {
    hide HandledTx, Serves, ScanInputs, Inv, WantedBy, Wanted, RowServes, KeyCached;
    var db' := HandledTx(cfg, paths, db, results[n], priority, now);
    HandledRows(cfg, paths, db, results[n], priority, now);
    forall id | id in db'.queue
      ensures RowServes(cfg, paths, priority, before, results, n + 1, Runs.Find(before, id), db'.queue[id])
    {
      var row := db'.queue[id];
      WantedEither(cfg, before, db, results[n], row);
      if WantedBy(cfg, db, results[n], row) {
        WantedIsUncached(cfg, db, results[n], row);
        HandledServes(cfg, paths, db, results[n], priority, now, id);
      }
      ServesNext(cfg, paths, priority, before, results, n, Runs.Find(before, id), Runs.Find(db, id), row);
    }
  }

  lemma WantedIsUncached(cfg: Config, db: Db, res: Listed, row: Row)
    requires WantedBy(cfg, db, res, row)
    ensures !KeyCached(cfg, db, res)
  {
  }

  /** After k results: those are settled, and everything else is as it was. */
  ghost predicate Progress(cfg: Config, before: Db, db: Db, results: seq<Listed>, k: nat)
    requires k <= |results|
  {
    && OnlyWantedRows(cfg, before, db, results, k)
    && (forall i :: 0 <= i < k ==> Settled(cfg, before, db, results[i]))
    && (forall s :: s in before.scans && !IsListed(results[..k], s) ==> Untouched(before, db, s))
  }

  lemma OnlyWantedSoFar(cfg: Config, before: Db, db: Db, results: seq<Listed>, k: nat)
    requires k < |results| && Progress(cfg, before, db, results, k)
    ensures OnlyWantedRows(cfg, before, db, results, k)
  {
  }

  lemma SameRowsServe(cfg: Config, paths: PathLib, priority: int, before: Db, db: Db, db': Db, results: seq<Listed>, n: nat)
    requires n <= |results| && RowsServe(cfg, paths, priority, before, db, results, n) && db'.queue == db.queue
    ensures RowsServe(cfg, paths, priority, before, db', results, n)
  {
  }

  lemma StartServes(cfg: Config, paths: PathLib, priority: int, db: Db, results: seq<Listed>)
    ensures RowsServe(cfg, paths, priority, db, db, results, 0)
  {
  }

  lemma StartProgress(cfg: Config, db: Db, results: seq<Listed>)
    ensures Progress(cfg, db, db, results, 0)
  {
  }

  lemma HandledOneMore(cfg: Config, paths: PathLib, before: Db, db: Db, results: seq<Listed>, k: nat, priority: int, now: int)
    requires Inv(cfg, db) && AscendingListed(results) && k < |results| && results[k].id in db.scans
    requires Progress(cfg, before, db, results, k)
    requires Settled(cfg, before, HandledTx(cfg, paths, db, results[k], priority, now), results[k])
    requires db.cache == before.cache
    ensures Progress(cfg, before, HandledTx(cfg, paths, db, results[k], priority, now), results, k + 1)
  {
    hide HandledTx, Settled, OnlyWantedRows, Inv;
    var db' := HandledTx(cfg, paths, db, results[k], priority, now);
    HandledOneMoreRows(cfg, paths, before, db, results, k, priority, now);
    forall i | 0 <= i < k
      ensures Settled(cfg, before, db', results[i])
    {
      HandlingLeavesOthers(cfg, paths, db, results[k], priority, now, results[i].id);
      UndisturbedStaysSettled(cfg, before, db, db', results[i]);
    }
    forall s | s in before.scans && !IsListed(results[..k + 1], s)
      ensures Untouched(before, db', s)
    {
      ListedGrows(results, k, s);
      HandlingLeavesOthers(cfg, paths, db, results[k], priority, now, s);
    }
  }

  ghost predicate IsListed(results: seq<Listed>, s: int) {
    exists k :: 0 <= k < |results| && results[k].id == s
  }

  ghost predicate InScanStatus(db: Db, s: int, status: Status) {
    s in db.scans && db.scans[s].status == status
  }

  /** The result has the same columns and the same links. */
  ghost predicate Untouched(before: Db, db: Db, s: int) {
    && s in before.scans && s in db.scans && db.scans[s] == before.scans[s]
    && forall r :: (r, s) in db.links <==> (r, s) in before.links
  }

  predicate AscendingListed(results: seq<Listed>) {
    forall i, j :: 0 <= i < j < |results| ==> results[i].id < results[j].id
  }

  lemma NotYetListed(results: seq<Listed>, k: nat)
    requires AscendingListed(results) && k < |results|
    ensures forall j :: k <= j < |results| ==> !IsListed(results[..k], results[j].id)
  {
  }

  lemma ListedGrows(results: seq<Listed>, k: nat, s: int)
    requires k < |results| && !IsListed(results[..k + 1], s)
    ensures !IsListed(results[..k], s) && results[k].id != s
  {
  }

  /** The list names, in ascending order, exactly the pending results of the library. */
  ghost predicate ExactlyPending(db: Db, lib: int, results: seq<Listed>) {
    && AscendingListed(results)
    && (forall k :: 0 <= k < |results| ==> IsPending(db, lib, results[k]))
    && (forall s :: s in db.scans && db.scans[s].libraryId == lib && db.scans[s].status == Pending ==> IsListed(results, s))
  }

  lemma ListedIsExact(db: Db, lib: int, results: seq<Listed>)
    requires AscendingListed(results)
    requires forall k :: 0 <= k < |results| ==> IsPending(db, lib, results[k])
    requires forall s :: s in db.scans && db.scans[s].libraryId == lib && db.scans[s].status == Pending ==>
               Listed(s, db.scans[s]) in results
    ensures ExactlyPending(db, lib, results)
  {
  }

  /** What a pass leaves behind: see EnqueuePending. */
  ghost predicate PassLeaves(cfg: Config, before: Db, db: Db, results: seq<Listed>, pass: Pass) {
    && (forall s :: s in before.scans && !IsListed(results, s) ==> Untouched(before, db, s))
    && match pass
       case Finished =>
         && OnlyWantedRows(cfg, before, db, results, |results|)
         && forall k :: 0 <= k < |results| ==> Settled(cfg, before, db, results[k])
       case Stopped(at, handling) =>
         && at < |results| && handling != Handled
         && OnlyWantedRows(cfg, before, db, results, at)
         && (forall k :: 0 <= k < at ==> Settled(cfg, before, db, results[k]))
         && (forall k :: at < k < |results| ==> Untouched(before, db, results[k].id))
         && (handling == Restored ==> Untouched(before, db, results[at].id))
         && (handling == Stuck ==> InScanStatus(db, results[at].id, Processing))
  }

  lemma FinishLeaves(cfg: Config, before: Db, db: Db, results: seq<Listed>)
    requires Progress(cfg, before, db, results, |results|)
    ensures PassLeaves(cfg, before, db, results, Finished)
  {
  }

  lemma NextIsPending(cfg: Config, before: Db, db: Db, lib: int, results: seq<Listed>, k: nat)
    requires ExactlyPending(before, lib, results) && k < |results| && Progress(cfg, before, db, results, k)
    ensures IsPending(db, results[k].scan.libraryId, results[k]) && Untouched(before, db, results[k].id)
  {
  }

  lemma StopLeaves(cfg: Config, before: Db, db: Db, db': Db, lib: int, results: seq<Listed>, k: nat, h: Handling)
    requires ExactlyPending(before, lib, results) && k < |results| && h != Handled
    requires Progress(cfg, before, db, results, k)
    requires db' == if h == Restored then db else Reserve(db, results[k])
    requires DoneCached(db)
    ensures PassLeaves(cfg, before, db', results, Stopped(k, h))
    ensures db'.cache == db.cache && DoneCached(db')
  {
    hide Settled, DoneCached;
    SameRowsDoneCached(db, db');
    NotYetListed(results, k);
    assert forall i :: 0 <= i < |results| ==> IsPending(before, lib, results[i]);
    assert Untouched(before, db, results[k].id);
    MarkOne(db, results[k].id, Processing);
    forall i | 0 <= i < k
      ensures Settled(cfg, before, db', results[i])
    {
      assert Undisturbed(db, db', results[i].id);
      UndisturbedStaysSettled(cfg, before, db, db', results[i]);
    }
    StopLeavesUntouched(before, db, db', results, k);
  }

  /** Changing at most the k-th result leaves every result untouched that was not handled before. */
  lemma StopLeavesUntouched(before: Db, db: Db, db': Db, results: seq<Listed>, k: nat)
    requires AscendingListed(results) && k < |results|
    requires forall i :: 0 <= i < |results| ==> results[i].id in before.scans
    requires forall s :: s in before.scans && !IsListed(results[..k], s) ==> Untouched(before, db, s)
    requires db'.links == db.links
    requires forall s :: s in db.scans && s != results[k].id ==> s in db'.scans && db'.scans[s] == db.scans[s]
    ensures forall s :: s in before.scans && !IsListed(results, s) ==> Untouched(before, db', s)
    ensures forall j :: k < j < |results| ==> Untouched(before, db', results[j].id)
  {
  }
}

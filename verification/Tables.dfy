/** The database as an object whose tables are updated in place, and the three repositories that
    share it. Each method is one transaction; its contract gives the tables after it. */
module Tables {
  import opened Backoff
  import opened Normalize
  import opened Selection
  import opened Schema
  import opened Transactions
  import opened Invariant
  import opened Ordering
  import opened Cache
  import opened Clearing

  class Database {
    var queue: map<int, Row>
    var scans: map<int, ScanRow>
    var links: set<(int, int)>
    var cache: map<CacheKey, CacheRow>
    var nextRow: int
    var nextScan: int
    var nextCache: int

    constructor ()
      ensures State() == EMPTY
    {
      queue, scans, links, cache := map[], map[], {}, map[];
      nextRow, nextScan, nextCache := 1, 1, 1;
    }

    function State(): Db
      reads this
    {
      Db(queue, scans, links, cache, nextRow, nextScan, nextCache)
    }

    /** ON DELETE CASCADE of the junction. */
    method DeleteRow(id: int)
      modifies this
      ensures State() == DeleteRows(old(State()), {id})
    {
      queue := map k | k in queue && k != id :: queue[k];
      links := set l | l in links && l.0 != id;
      assert queue == DeleteRows(old(State()), {id}).queue;
      assert links == DeleteRows(old(State()), {id}).links;
    }
  }

  datatype Verdict = Deletes | Updates | Keeps

  class DBQueue {
    const db: Database
    const norm: Normalizer
    const baseBackoff: Duration
    const maxBackoff: Duration

    constructor (db: Database, norm: Normalizer, baseBackoff: Duration, maxBackoff: Duration)
      ensures this.db == db && this.norm == norm
      ensures this.baseBackoff == baseBackoff && this.maxBackoff == maxBackoff
    {
      this.db, this.norm := db, norm;
      this.baseBackoff, this.maxBackoff := baseBackoff, maxBackoff;
    }

    function Cfg(): Config {
      Config(norm, baseBackoff as int, maxBackoff as int)
    }

    ghost predicate Valid()
      reads db
    {
      Inv(Cfg(), db.State())
    }

    method Enqueue(inputs: Inputs, priority: int, now: int) returns (r: Result<WorkItem>)
      requires Valid()
      modifies db
      ensures Valid()
      ensures db.State() == EnqueueTx(Cfg(), old(db.State()), inputs, priority, now)
      ensures
        var id := EnqueueId(Cfg(), old(db.State()), inputs);
        if EnqueueRejected(old(db.State()), inputs) then r == Err(ConstraintFailed)
        else id in db.queue && r == Ok(ToItem(id, db.queue[id]))
    {
      hide Inv, Refreshed;
      ghost var before := db.State();
      EnqueueKeepsInv(Cfg(), before, inputs, priority, now);
      var artistKey, titleKey := norm(inputs.track.artist), norm(inputs.track.title);
      LookupExact(Cfg(), before, artistKey, titleKey);
      var link := LinkOf(inputs);
      if link.Some? && link.value !in db.scans {
        return Err(ConstraintFailed);
      }
      var outputPaths := PathsOrDefault(inputs.outputPaths, inputs.outdir, inputs.filename);
      var item;
      if id :| id in db.queue && db.queue[id].artistKey == artistKey && db.queue[id].titleKey == titleKey {
        assert HasKey(before, id, artistKey, titleKey);
        var row := Refresh(db.queue[id], inputs, outputPaths, priority, now);
        db.queue := db.queue[id := row];
        item := id;
      } else {
        item := db.nextRow;
        var row := Row(inputs.track.artist, inputs.track.title, artistKey, titleKey,
                       inputs.outdir, inputs.filename, inputs.sourcePath, outputPaths,
                       link, Pending, priority, 0, Seconds(now), "", Seconds(now), None);
        db.queue := db.queue[item := row];
        db.nextRow := db.nextRow + 1;
      }
      if link.Some? {
        db.links := db.links + {(item, link.value)};
      }
      return Ok(ToItem(item, db.queue[item]));
    }

    /** The ten conflict columns, one CASE after the other. */
    method Refresh(stored: Row, inputs: Inputs, outputPaths: seq<OutputPath>, priority: int, now: int) returns (row: Row)
      requires outputPaths == PathsOrDefault(inputs.outputPaths, inputs.outdir, inputs.filename)
      ensures row == Refreshed(stored, Inserted(Cfg(), inputs, priority, now))
    {
      row := stored;
      if row.status != Done {
        row := row.(completedAt := None);
      }
      if row.status == Pending || row.status == Failed {
        row := row.(artist := inputs.track.artist, title := inputs.track.title,
                    outdir := inputs.outdir, filename := inputs.filename,
                    sourcePath := inputs.sourcePath, outputPaths := outputPaths);
      }
      if row.scanResultId.None? {
        row := row.(scanResultId := LinkOf(inputs));
      }
      if row.priority < priority {
        row := row.(priority := priority);
      }
      if row.status == Pending || (row.status == Failed && priority >= PRIORITY_WEBHOOK) {
        row := row.(nextAttemptAt := Seconds(now));
      }
      if row.status == Pending {
        row := row.(lastError := "");
      }
    }

    /** Of the due rows of the greatest priority, the oldest one becomes processing and is handed
        out, the one inserted first if several are equally old; nothing else changes. */
    method Dequeue(now: int) returns (r: Result<WorkItem>)
      requires Valid()
      modifies db
      ensures Valid()
      ensures db.State() == DequeueTx(old(db.State()), now)
      ensures match NextReady(old(db.State()), Seconds(now))
        case None => r == Err(NoRows)
        case Some(id) => id in db.queue && r == Ok(ToItem(id, db.queue[id]))
      ensures match r
        case Err(_) =>
          && db.State() == old(db.State())
          && forall id :: id in db.queue ==> !Due(db.queue[id], Seconds(now))
        case Ok(item) =>
          && FirstDue(old(db.State()), Seconds(now), item.id)
          && db.State() == old(db.State()).(queue := old(db.queue)[item.id := old(db.queue)[item.id].(status := Processing)])
    {
      ghost var before := db.State();
      DequeueKeepsInv(Cfg(), before, now);
      NextIsUnique(before, Seconds(now));
      NextIsFirstDue(before, Seconds(now), if NextReady(before, Seconds(now)).Some? then NextReady(before, Seconds(now)).value else 0);
      if id :| id in db.queue && IsNext(db.State(), Seconds(now), id) {
        db.queue := db.queue[id := db.queue[id].(status := Processing)];
        return Ok(ToItem(id, db.queue[id]));
      }
      return Err(NoRows);
    }

    method Complete(id: int, now: int) returns (r: Result<()>)
      requires Valid()
      modifies db
      ensures Valid()
      ensures db.State() == CompleteTx(old(db.State()), id, now)
      ensures r == if InStatus(old(db.State()), id, Processing) then Ok(()) else Err(NoRows)
    {
      hide Inv;
      ghost var before := db.State();
      SettleKeepsInv(Cfg(), before, id, None, now);
      if id !in db.queue || db.queue[id].status != Processing {
        return Err(NoRows);
      }
      db.queue := db.queue[id := db.queue[id].(status := Done, completedAt := Some(Seconds(now)), lastError := "")];
      db.scans := map s | s in db.scans ::
        if (id, s) in db.links && db.scans[s].status != Done then db.scans[s].(status := Done) else db.scans[s];
      assert db.scans == CompleteTx(before, id, now).scans;
      return Ok(());
    }

    method Release(id: int) returns (r: Result<()>)
      requires Valid()
      modifies db
      ensures Valid()
      ensures db.State() == ReleaseTx(old(db.State()), id)
      ensures r == if InStatus(old(db.State()), id, Processing) then Ok(()) else Err(NoRows)
    {
      hide Inv;
      SettleKeepsInv(Cfg(), db.State(), id, None, 0);
      if id !in db.queue || db.queue[id].status != Processing {
        return Err(NoRows);
      }
      db.queue := db.queue[id := db.queue[id].(status := Pending, lastError := "")];
      return Ok(());
    }

    method Fail(id: int, cause: Option<string>, now: int) returns (r: Result<WorkItem>)
      requires Valid()
      modifies db
      ensures Valid()
      ensures db.State() == FailTx(Cfg(), old(db.State()), id, cause, now)
      ensures r == if InStatus(old(db.State()), id, Processing)
                   then Ok(ToItem(id, FailedRow(Cfg(), old(db.State()).queue[id], cause, now))) else Err(NoRows)
    {
      hide Inv;
      SettleKeepsInv(Cfg(), db.State(), id, cause, now);
      if id !in db.queue || db.queue[id].status != Processing {
        return Err(NoRows);
      }
      var nextAttempts := db.queue[id].attempts + 1;
      var delay, _ := Geometric(nextAttempts, baseBackoff, maxBackoff);
      var lastError := "";
      if cause.Some? {
        lastError := cause.value;
      }
      var row := db.queue[id].(
        status := Failed,
        attempts := nextAttempts,
        nextAttemptAt := Seconds(now + delay as int),
        lastError := lastError);
      assert row == FailedRow(Cfg(), db.queue[id], cause, now);
      db.queue := db.queue[id := row];
      return Ok(ToItem(id, db.queue[id]));
    }

    method Retry(id: int, now: int) returns (r: Result<WorkItem>)
      requires Valid()
      modifies db
      ensures Valid()
      ensures db.State() == RetryTx(old(db.State()), id, now)
      ensures r == if InStatus(old(db.State()), id, Failed) then Ok(ToItem(id, RetriedRow(old(db.State()).queue[id], now)))
                   else if id in old(db.State()).queue then Err(NotRetryable) else Err(NoRows)
    {
      hide Inv;
      ghost var before := db.State();
      RetryKeepsInv(Cfg(), before, id, now);
      if id !in db.queue {
        return Err(NoRows);
      }
      if db.queue[id].status != Failed {
        return Err(NotRetryable);
      }
      db.queue := db.queue[id := db.queue[id].(status := Pending, attempts := 0, nextAttemptAt := Seconds(now), lastError := "")];
      db.scans := map s | s in db.scans ::
        if (id, s) in db.links && db.scans[s].status == Processing then db.scans[s].(status := Pending) else db.scans[s];
      assert db.scans == RetryTx(before, id, now).scans;
      return Ok(ToItem(id, db.queue[id]));
    }

    method Cleanup(inputs: Inputs) returns (removed: nat)
      requires Valid()
      modifies db
      ensures Valid()
      ensures db.State() == CleanupTx(Cfg(), old(db.State()), inputs)
      ensures removed == |CleanupIds(Cfg(), old(db.State()), inputs)| <= 1
    {
      ghost var before := db.State();
      ghost var ids := CleanupIds(Cfg(), before, inputs);
      DeleteRowsKeepsInv(Cfg(), before, ids);
      LookupExact(Cfg(), before, norm(inputs.track.artist), norm(inputs.track.title));
      var artistKey, titleKey := norm(inputs.track.artist), norm(inputs.track.title);
      if id :| id in db.queue && HasKey(db.State(), id, artistKey, titleKey) && Retryable(db.queue[id]) {
        assert ids == {id};
        db.DeleteRow(id);
        return 1;
      }
      assert ids == {};
      assert DeleteRows(before, {}).queue == before.queue && DeleteRows(before, {}).links == before.links;
      return 0;
    }

    method ClearDone() returns (removed: nat)
      requires Valid()
      modifies db
      ensures Valid()
      ensures db.State() == ClearDoneTx(old(db.State()))
      ensures removed == |DoneIds(old(db.State()))|
    {
      DeleteRowsKeepsInv(Cfg(), db.State(), DoneIds(db.State()));
      var done := DoneIds(db.State());
      db.links := set l | l in db.links && l.0 !in done;
      db.queue := map id | id in db.queue && id !in done :: db.queue[id];
      return |done|;
    }

    /** One candidate: filter its destinations by its keep set, then delete, rewrite or keep it. */
    method CancelRow(lib: int, id: int, dryRun: bool, ghost before: Db, ghost ids: set<int>) returns (verdict: Verdict)
      requires id in before.queue && id !in ids && Candidate(before, lib, id)
      requires db.State() == if dryRun then before else CancelRows(before, lib, ids)
      modifies db
      ensures db.State() == if dryRun then before else CancelRows(before, lib, ids + {id})
      ensures verdict == if CancelDeletes(before, lib, id) then Deletes else if CancelUpdates(before, lib, id) then Updates else Keeps
    {
      CancelOneMore(before, lib, ids, id);
      OtherRowsUntouched(before, lib, ids, id);
      ghost var mid := db.State();
      var paths := db.queue[id].outputPaths;
      var filtered := FilterPaths(paths, KeepSet(db.State(), id, lib));
      assert Kept(mid, lib, id) == Kept(before, lib, id) == filtered;
      if filtered == [] {
        if !dryRun {
          CancelOneDeletes(mid, lib, id);
          db.DeleteRow(id);
        }
        return Deletes;
      }
      if |filtered| == |paths| {
        CancelOneKeeps(mid, lib, id);
        return Keeps;
      }
      if !dryRun {
        CancelOneUpdates(mid, lib, id);
        db.queue := db.queue[id := db.queue[id].(outputPaths := filtered)];
      }
      return Updates;
    }

    method FilterPaths(paths: seq<OutputPath>, keep: set<OutputPath>) returns (filtered: seq<OutputPath>)
      ensures filtered == Filter(paths, keep)
    {
      filtered := [];
      for i := 0 to |paths|
        invariant filtered == Filter(paths[..i], keep)
      {
        assert paths[..i + 1] == paths[..i] + [paths[i]];
        FilterAppend(paths[..i], [paths[i]], keep);
        if paths[i] in keep {
          filtered := filtered + [paths[i]];
        }
      }
      assert paths[..|paths|] == paths;
    }

    /** Row by row; each row's keep set is read from the tables as the earlier iterations left them. */
    method CancelEach(lib: int, candidates: seq<int>, dryRun: bool) returns (deleted: nat, updated: nat)
      requires StrictlyAscending(candidates)
      requires forall id :: id in candidates ==> id in db.queue && Candidate(db.State(), lib, id)
      modifies db
      ensures db.State() == if dryRun then old(db.State()) else CancelRows(old(db.State()), lib, Elements(candidates))
      ensures deleted == |DeletedBy(old(db.State()), lib, Elements(candidates))|
      ensures updated == |UpdatedBy(old(db.State()), lib, Elements(candidates))|
    {
      ghost var before, ids := db.State(), {};
      deleted, updated := 0, 0;
      CancelNothing(before, lib);
      for k := 0 to |candidates|
        invariant ids == Elements(candidates[..k])
        invariant db.State() == if dryRun then before else CancelRows(before, lib, ids)
        invariant deleted == |DeletedBy(before, lib, ids)|
        invariant updated == |UpdatedBy(before, lib, ids)|
      {
        var id := candidates[k];
        assert id in candidates;
        NextElement(candidates, k);
        CountOneMore(before, lib, ids, id);
        var verdict := CancelRow(lib, id, dryRun, before, ids);
        match verdict {
          case Deletes => deleted := deleted + 1;
          case Updates => updated := updated + 1;
          case Keeps =>
        }
        ids := ids + {id};
      }
      assert candidates[..|candidates|] == candidates;
    }

    /** The cancel transaction, or with `dryRun` its projection without writing: both report the
        same pair, the numbers of rows deleted and rewritten. */
    method CancelByLibrary(lib: int, dryRun: bool) returns (deleted: nat, updated: nat)
      requires Valid()
      modifies db
      ensures Valid()
      ensures db.State() == if dryRun then old(db.State()) else CancelTx(old(db.State()), lib)
      ensures deleted == |DeletedBy(old(db.State()), lib, Candidates(old(db.State()), lib))|
      ensures updated == |UpdatedBy(old(db.State()), lib, Candidates(old(db.State()), lib))|
    {
      hide CancelRows;
      ghost var before := db.State();
      var wanted := Candidates(db.State(), lib);
      var candidates := AscendingIds(wanted, 1, db.nextRow);
      AscendingExactly(wanted, 1, db.nextRow);
      CancelKeepsInv(Cfg(), before, lib, wanted);
      deleted, updated := CancelEach(lib, candidates, dryRun);
    }
  }

  /** A scan result as listed, with its id. */
  datatype Listed = Listed(id: int, scan: ScanRow)

  class Repo {
    const db: Database
    ghost const cfg: Config

    constructor (db: Database, ghost cfg: Config)
      ensures this.db == db && this.cfg == cfg
    {
      this.db, this.cfg := db, cfg;
    }

    ghost predicate Valid()
      reads db
    {
      Inv(cfg, db.State())
    }

    /** All results in one transaction; a status outside the schema rolls all of them back. */
    method Upsert(lib: int, results: seq<ScanInput>, force: bool) returns (r: Result<()>)
      requires Valid()
      modifies db
      ensures Valid()
      ensures db.State() == UpsertTx(old(db.State()), lib, results, force)
      ensures r == if AnyUnknown(results) then Err(UnsupportedStatus) else Ok(())
      ensures r.Ok? <==> forall k :: 0 <= k < |results| ==> !results[k].status.Unknown?
      ensures r.Err? ==> db.State() == old(db.State())
      ensures r.Ok? ==> db.State() == UpsertAll(old(db.State()), lib, results, force)
    {
      ghost var before := db.State();
      UpsertAllKeepsInv(cfg, before, lib, results, force);
      var scans, nextScan := db.scans, db.nextScan;
      for k := 0 to |results|
        invariant db.State() == before
        invariant before.(scans := scans, nextScan := nextScan) == UpsertAll(before, lib, results[..k], force)
        invariant forall i :: 0 <= i < k ==> !results[i].status.Unknown?
      {
        var res := results[k];
        if res.status.Unknown? {
          assert AnyUnknown(results);
          return Err(UnsupportedStatus);
        }
        ghost var mid := before.(scans := scans, nextScan := nextScan);
        UpsertAllKeepsInv(cfg, before, lib, results[..k], force);
        FindFileExact(cfg, mid, lib, res.filePath);
        assert results[..k + 1][..k] == results[..k];
        var status := StatusOrPending(res.status);
        if s :| s in scans && scans[s].libraryId == lib && scans[s].filePath == res.filePath {
          assert HasFile(mid, s, lib, res.filePath);
          scans := scans[s := ScanRow(lib, res.filePath, res.artist, res.title, res.outdir, res.filename,
                                      if force then status else scans[s].status)];
        } else {
          scans := scans[nextScan := ScanRow(lib, res.filePath, res.artist, res.title, res.outdir, res.filename, status)];
          nextScan := nextScan + 1;
        }
      }
      assert results[..|results|] == results;
      db.scans, db.nextScan := scans, nextScan;
      return Ok(());
    }

    /** The pending results of a library, in ascending id order. */
    method ListPendingByLibrary(lib: int) returns (results: seq<Listed>)
      requires Valid()
      ensures forall i, j :: 0 <= i < j < |results| ==> results[i].id < results[j].id
      ensures forall k :: 0 <= k < |results| ==> IsPending(db.State(), lib, results[k])
      ensures forall s :: s in db.scans && db.scans[s].libraryId == lib && db.scans[s].status == Pending ==>
                Listed(s, db.scans[s]) in results
    {
      hide AscendingIds, ListedScans, RowsOk, LinksOk, CacheOk;
      var wanted := set s | s in db.scans && db.scans[s].libraryId == lib && db.scans[s].status == Pending;
      var ids := AscendingIds(wanted, 1, db.nextScan);
      AscendingExactly(wanted, 1, db.nextScan);
      assert forall k :: 0 <= k < |ids| ==> ids[k] in ids;
      results := ListedScans(ids, db.scans);
      forall s | s in wanted
        ensures Listed(s, db.scans[s]) in results
      {
        assert s in ids;
        var k :| 0 <= k < |ids| && ids[k] == s;
        assert results[k] == Listed(s, db.scans[s]);
      }
    }

    /** Every id or, if one is missing or the status is not supported, none. */
    method SetStatus(ids: seq<int>, text: StatusText) returns (r: Result<()>)
      requires Valid()
      modifies db
      ensures Valid()
      ensures db.State() == SetStatusTx(old(db.State()), ids, text)
      ensures r.Ok? <==> SetStatusAccepted(old(db.State()), ids, text)
    {
      if ids == [] {
        return Ok(());
      }
      if !text.Named? {
        return Err(UnsupportedStatus);
      }
      ghost var before := db.State();
      MarkKeepsInv(cfg, before, Elements(ids), text.status);
      var scans := db.scans;
      for k := 0 to |ids|
        invariant db.State() == before && scans.Keys == before.scans.Keys
        invariant forall i :: 0 <= i < k ==> ids[i] in before.scans
        invariant forall s :: s in scans ==>
          scans[s] == if s in ids[..k] then before.scans[s].(status := text.status) else before.scans[s]
      {
        var s := ids[k];
        if s !in scans {
          assert s in ids;
          return Err(NoRows);
        }
        assert ids[..k + 1] == ids[..k] + [s];
        scans := scans[s := scans[s].(status := text.status)];
      }
      assert ids[..|ids|] == ids;
      SameMarks(before, ids, text.status, scans);
      db.scans := scans;
      return Ok(());
    }

    method ClearByLibrary(lib: int) returns (removed: nat)
      requires Valid()
      modifies db
      ensures Valid()
      ensures db.State() == ClearLibraryTx(old(db.State()), lib)
      ensures removed == |ScansOf(old(db.State()), lib)|
    {
      DeleteScansKeepsInv(cfg, db.State(), ScansOf(db.State(), lib));
      var gone := ScansOf(db.State(), lib);
      db.queue := map id | id in db.queue :: Unlink(db.queue[id], gone);
      db.links := set l | l in db.links && l.1 !in gone;
      db.scans := map s | s in db.scans && s !in gone :: db.scans[s];
      return |gone|;
    }
  }

  class CacheRepo {
    const db: Database
    const norm: Normalizer
    ghost const cfg: Config

    constructor (db: Database, norm: Normalizer, ghost cfg: Config)
      requires cfg.norm == norm
      ensures this.db == db && this.norm == norm && this.cfg == cfg
    {
      this.db, this.norm, this.cfg := db, norm, cfg;
    }

    ghost predicate Valid()
      reads db
    {
      cfg.norm == norm && Inv(cfg, db.State())
    }

    method LookupExact(artist: string, title: string, album: string) returns (r: Result<string>)
      requires Valid()
      ensures var k := KeyFor(cfg, artist, title, album);
        r == if k in db.cache then Ok(db.cache[k].lyrics) else Err(NoRows)
    {
      var k := CacheKey(norm(artist), norm(title), norm(album));
      return if k in db.cache then Ok(db.cache[k].lyrics) else Err(NoRows);
    }

    /** The most recently updated entry for artist and title, whatever the album. */
    method LookupFallback(artist: string, title: string) returns (r: Result<string>)
      requires Valid()
      ensures match Latest(db.State(), norm(artist), norm(title))
        case None => r == Err(NoRows)
        case Some(k) => k in db.cache && r == Ok(db.cache[k].lyrics)
      ensures r.Ok? <==> Cached(db.State(), norm(artist), norm(title))
      ensures r.Ok? ==> exists k :: MostRecent(db.State(), norm(artist), norm(title), k) && r.value == db.cache[k].lyrics
    {
      LatestIsUnique(cfg, db.State(), norm(artist), norm(title));
      if k :| k in db.cache && IsLatest(db.State(), norm(artist), norm(title), k) {
        LatestIsMostRecent(cfg, db.State(), norm(artist), norm(title), k);
        return Ok(db.cache[k].lyrics);
      }
      return Err(NoRows);
    }

    method Store(artist: string, title: string, album: string, lyrics: string, now: int)
      requires Valid()
      modifies db
      ensures Valid()
      ensures db.State() == StoreTx(cfg, old(db.State()), artist, title, album, lyrics, now)
    {
      StoreKeepsInv(cfg, db.State(), artist, title, album, lyrics, now);
      var k := CacheKey(norm(artist), norm(title), norm(album));
      if k in db.cache {
        db.cache := db.cache[k := CacheRow(db.cache[k].id, lyrics, Seconds(now))];
      } else {
        db.cache := db.cache[k := CacheRow(db.nextCache, lyrics, Seconds(now))];
        db.nextCache := db.nextCache + 1;
      }
    }
  }

  /** The `scan clear` command: without confirmation it only reports; with it, cancel and clear
      commit together and remove exactly what was reported. */
  method RunScanClear(queue: DBQueue, repo: Repo, lib: int, yes: bool) returns (cleared: nat, deleted: nat, updated: nat)
    requires queue.db == repo.db && queue.Cfg() == repo.cfg && queue.Valid()
    modifies queue.db
    ensures queue.Valid()
    ensures queue.db.State() == if yes then ScanClearTx(old(queue.db.State()), lib) else old(queue.db.State())
    ensures cleared == |ScansOf(old(queue.db.State()), lib)|
    ensures deleted == |DeletedBy(old(queue.db.State()), lib, Candidates(old(queue.db.State()), lib))|
    ensures updated == |UpdatedBy(old(queue.db.State()), lib, Candidates(old(queue.db.State()), lib))|
  {
    ghost var before := queue.db.State();
    if !yes {
      deleted, updated := queue.CancelByLibrary(lib, true);
      cleared := |ScansOf(queue.db.State(), lib)|;
      return;
    }
    deleted, updated := queue.CancelByLibrary(lib, false);
    assert ScansOf(CancelTx(before, lib), lib) == ScansOf(before, lib);
    cleared := repo.ClearByLibrary(lib);
  }

  ghost predicate IsPending(db: Db, lib: int, r: Listed) {
    r.id in db.scans && db.scans[r.id] == r.scan && r.scan.libraryId == lib && r.scan.status == Pending
  }

  lemma SameMarks(db: Db, ids: seq<int>, status: Status, scans: map<int, ScanRow>)
    requires scans.Keys == db.scans.Keys
    requires forall s :: s in scans ==> scans[s] == if s in ids then db.scans[s].(status := status) else db.scans[s]
    ensures MarkScans(db, Elements(ids), status) == db.(scans := scans)
  {
    var marked := MarkScans(db, Elements(ids), status).scans;
    forall s
      ensures Get(marked, s) == Get(scans, s)
    {
      assert s in scans.Keys <==> s in db.scans.Keys;
    }
    SameMap(marked, scans);
  }

  function ListedScans(ids: seq<int>, scans: map<int, ScanRow>): (results: seq<Listed>)
    requires forall k :: 0 <= k < |ids| ==> ids[k] in scans
    ensures |results| == |ids|
    ensures forall k :: 0 <= k < |ids| ==> results[k] == Listed(ids[k], scans[ids[k]])
  {
    seq(|ids|, k requires 0 <= k < |ids| => Listed(ids[k], scans[ids[k]]))
  }

  // ----- ids in ascending order -----

  /** ORDER BY id ASC, for the ids from lo to below hi. */
  function AscendingIds(ids: set<int>, lo: int, hi: int): seq<int>
    decreases hi - lo
  {
    if lo >= hi then [] else (if lo in ids then [lo] else []) + AscendingIds(ids, lo + 1, hi)
  }

  predicate StrictlyAscending(ids: seq<int>) {
    forall i, j :: 0 <= i < j < |ids| ==> ids[i] < ids[j]
  }

  lemma {:induction false} AscendingHoldsAll(ids: set<int>, lo: int, hi: int)
    ensures StrictlyAscending(AscendingIds(ids, lo, hi))
    ensures forall id :: id in AscendingIds(ids, lo, hi) <==> lo <= id < hi && id in ids
    decreases hi - lo
  {
    if lo < hi {
      AscendingHoldsAll(ids, lo + 1, hi);
      var rest := AscendingIds(ids, lo + 1, hi);
      assert forall k :: 0 <= k < |rest| ==> rest[k] in rest;
    }
  }

  lemma AscendingExactly(ids: set<int>, lo: int, hi: int)
    requires forall id :: id in ids ==> lo <= id < hi
    ensures StrictlyAscending(AscendingIds(ids, lo, hi))
    ensures Elements(AscendingIds(ids, lo, hi)) == ids
    ensures forall id :: id in AscendingIds(ids, lo, hi) <==> id in ids
  {
    AscendingHoldsAll(ids, lo, hi);
    forall id
      ensures id in Elements(AscendingIds(ids, lo, hi)) <==> id in ids
    {
      assert id in AscendingIds(ids, lo, hi) <==> lo <= id < hi && id in ids;
    }
  }

  lemma NextElement(ids: seq<int>, k: nat)
    requires StrictlyAscending(ids) && k < |ids|
    ensures ids[k] !in Elements(ids[..k])
    ensures Elements(ids[..k + 1]) == Elements(ids[..k]) + {ids[k]}
  {
    assert ids[..k + 1] == ids[..k] + [ids[k]];
  }

  // ----- one iteration of the cancel loop -----

  lemma CancelNothing(db: Db, lib: int)
    ensures CancelRows(db, lib, {}) == db
    ensures DeletedBy(db, lib, {}) == UpdatedBy(db, lib, {}) == {}
  {
    assert CancelRows(db, lib, {}).queue == db.queue && CancelRows(db, lib, {}).links == db.links;
  }

  lemma CountOneMore(db: Db, lib: int, ids: set<int>, id: int)
    requires id !in ids
    ensures |DeletedBy(db, lib, ids + {id})| == |DeletedBy(db, lib, ids)| + if CancelDeletes(db, lib, id) then 1 else 0
    ensures |UpdatedBy(db, lib, ids + {id})| == |UpdatedBy(db, lib, ids)| + if CancelUpdates(db, lib, id) then 1 else 0
  {
    hide CancelDeletes, CancelUpdates;
    assert DeletedBy(db, lib, ids + {id})
        == if CancelDeletes(db, lib, id) then DeletedBy(db, lib, ids) + {id} else DeletedBy(db, lib, ids);
    assert UpdatedBy(db, lib, ids + {id})
        == if CancelUpdates(db, lib, id) then UpdatedBy(db, lib, ids) + {id} else UpdatedBy(db, lib, ids);
  }

  lemma CancelOneDeletes(db: Db, lib: int, id: int)
    requires CancelDeletes(db, lib, id)
    ensures CancelRows(db, lib, {id}) == DeleteRows(db, {id})
  {
    assert CancelRows(db, lib, {id}).queue == DeleteRows(db, {id}).queue;
    assert CancelRows(db, lib, {id}).links == DeleteRows(db, {id}).links;
  }

  lemma CancelOneUpdates(db: Db, lib: int, id: int)
    requires CancelUpdates(db, lib, id)
    ensures CancelRows(db, lib, {id}) == db.(queue := db.queue[id := db.queue[id].(outputPaths := Kept(db, lib, id))])
  {
    var row := db.queue[id].(outputPaths := Kept(db, lib, id));
    assert CancelRows(db, lib, {id}).queue == db.queue[id := row];
    assert CancelRows(db, lib, {id}).links == db.links;
  }

  lemma CancelOneKeeps(db: Db, lib: int, id: int)
    requires !CancelDeletes(db, lib, id) && !CancelUpdates(db, lib, id)
    ensures CancelRows(db, lib, {id}) == db
  {
    assert CancelRows(db, lib, {id}).queue == db.queue;
    assert CancelRows(db, lib, {id}).links == db.links;
  }
}

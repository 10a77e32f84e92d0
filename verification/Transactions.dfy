/** Every database transaction of the service as a function from the old to the new tables.
    Foreign keys are enforced and there is one connection, so each of them is one atomic step. */
module Transactions {
  import Backoff
  import opened Numbers
  import opened Selection
  import opened Schema

  // ----- cascades -----

  /** Deleting queue rows cascades to their links. */
  function DeleteRows(db: Db, ids: set<int>): Db {
    db.(queue := map id | id in db.queue && id !in ids :: db.queue[id],
        links := set l | l in db.links && l.0 !in ids)
  }

  /** A row whose own link is to a deleted scan result forgets it. */
  function Unlink(row: Row, scans: set<int>): Row {
    if row.scanResultId.Some? && row.scanResultId.value in scans then row.(scanResultId := None) else row
  }

  /** Deleting scan results cascades to their links and nulls the rows' own link. */
  function DeleteScans(db: Db, scans: set<int>): Db {
    db.(queue := map id | id in db.queue :: Unlink(db.queue[id], scans),
        scans := map s | s in db.scans && s !in scans :: db.scans[s],
        links := set l | l in db.links && l.1 !in scans)
  }

  function Linked(db: Db, id: int): set<int> {
    set l | l in db.links && l.0 == id :: l.1
  }

  function MarkScans(db: Db, ids: set<int>, status: Status): Db {
    db.(scans := map s | s in db.scans :: if s in ids then db.scans[s].(status := status) else db.scans[s])
  }

  // ----- enqueue -----

  predicate HasKey(db: Db, id: int, artistKey: string, titleKey: string) {
    id in db.queue && db.queue[id].artistKey == artistKey && db.queue[id].titleKey == titleKey
  }

  /** The unique index on the two keys. */
  ghost function Lookup(db: Db, artistKey: string, titleKey: string): Option<int> {
    if exists id :: HasKey(db, id, artistKey, titleKey) then
      var id :| HasKey(db, id, artistKey, titleKey);
      Some(id)
    else
      None
  }

  function LinkOf(inputs: Inputs): Option<int> {
    if inputs.scanResultId <= 0 then None else Some(inputs.scanResultId)
  }

  /** The VALUES of the insert. */
  function Inserted(cfg: Config, inputs: Inputs, priority: int, now: int): Row {
    Row(
      inputs.track.artist, inputs.track.title,
      cfg.norm(inputs.track.artist), cfg.norm(inputs.track.title),
      inputs.outdir, inputs.filename, inputs.sourcePath,
      PathsOrDefault(inputs.outputPaths, inputs.outdir, inputs.filename),
      LinkOf(inputs), Pending, priority, 0, Seconds(now), "", Seconds(now), None)
  }

  /** The conflict branch: `row` is the stored row, `excluded` the rejected insert. */
  function Refreshed(row: Row, excluded: Row): Row {
    var owned := row.status == Done || row.status == Processing;
    var merged := row.(
      scanResultId := if row.scanResultId.Some? then row.scanResultId else excluded.scanResultId,
      priority := Max(row.priority, excluded.priority),
      completedAt := if row.status == Done then row.completedAt else None);
    if owned then
      merged
    else
      merged.(
        artist := excluded.artist, title := excluded.title,
        outdir := excluded.outdir, filename := excluded.filename,
        sourcePath := excluded.sourcePath, outputPaths := excluded.outputPaths,
        nextAttemptAt :=
          if row.status == Failed && excluded.priority < PRIORITY_WEBHOOK then row.nextAttemptAt else excluded.nextAttemptAt,
        lastError := if row.status == Failed then row.lastError else "")
  }

  /** A link to a scan result that does not exist violates the foreign key. */
  predicate EnqueueRejected(db: Db, inputs: Inputs) {
    LinkOf(inputs).Some? && LinkOf(inputs).value !in db.scans
  }

  ghost function EnqueueTarget(cfg: Config, db: Db, inputs: Inputs): Option<int> {
    Lookup(db, cfg.norm(inputs.track.artist), cfg.norm(inputs.track.title))
  }

  /** The row an accepted enqueue lands on. */
  ghost function EnqueueId(cfg: Config, db: Db, inputs: Inputs): int {
    match EnqueueTarget(cfg, db, inputs)
    case Some(id) => id
    case None => db.nextRow
  }

  function AddLink(db: Db, id: int, link: Option<int>): Db {
    if link.Some? then db.(links := db.links + {(id, link.value)}) else db
  }

  ghost function EnqueueTx(cfg: Config, db: Db, inputs: Inputs, priority: int, now: int): Db {
    if EnqueueRejected(db, inputs) then
      db
    else
      var excluded := Inserted(cfg, inputs, priority, now);
      match EnqueueTarget(cfg, db, inputs)
      case Some(id) =>
        if id in db.queue then
          AddLink(db.(queue := db.queue[id := Refreshed(db.queue[id], excluded)]), id, LinkOf(inputs))
        else db
      case None =>
        AddLink(db.(queue := db.queue[db.nextRow := excluded], nextRow := db.nextRow + 1), db.nextRow, LinkOf(inputs))
  }

  // ----- dequeue -----

  predicate Ready(db: Db, at: int, id: int) {
    id in db.queue && Retryable(db.queue[id]) && db.queue[id].nextAttemptAt <= at
  }

  /** ORDER BY priority DESC, created_at ASC, id ASC. */
  predicate Precedes(a: Row, idA: int, b: Row, idB: int) {
    || a.priority > b.priority
    || (a.priority == b.priority && a.createdAt < b.createdAt)
    || (a.priority == b.priority && a.createdAt == b.createdAt && idA < idB)
  }

  /** The first ready row in that order. */
  predicate IsNext(db: Db, at: int, id: int) {
    && Ready(db, at, id)
    && forall other :: other in db.queue && Ready(db, at, other) && other != id ==>
         Precedes(db.queue[id], id, db.queue[other], other)
  }

  ghost function NextReady(db: Db, at: int): Option<int> {
    if exists id :: IsNext(db, at, id) then
      var id :| IsNext(db, at, id);
      Some(id)
    else
      None
  }

  function WithStatus(db: Db, id: int, status: Status): Db
    requires id in db.queue
  {
    db.(queue := db.queue[id := db.queue[id].(status := status)])
  }

  ghost function DequeueTx(db: Db, now: int): Db {
    var next := NextReady(db, Seconds(now));
    if next.Some? && next.value in db.queue then WithStatus(db, next.value, Processing) else db
  }

  // ----- settling a claimed row -----

  predicate InStatus(db: Db, id: int, status: Status) {
    id in db.queue && db.queue[id].status == status
  }

  function CompletedRow(row: Row, now: int): Row {
    row.(status := Done, completedAt := Some(Seconds(now)), lastError := "")
  }

  function CompleteTx(db: Db, id: int, now: int): Db {
    if !InStatus(db, id, Processing) then
      db
    else
      MarkScans(db.(queue := db.queue[id := CompletedRow(db.queue[id], now)]), Linked(db, id), Done)
  }

  function ReleaseTx(db: Db, id: int): Db {
    if !InStatus(db, id, Processing) then
      db
    else
      db.(queue := db.queue[id := db.queue[id].(status := Pending, lastError := "")])
  }

  /** The stored time before which a row failed for the n-th time at `now` is not ready. */
  function RetryAt(cfg: Config, attempts: int, now: int): int {
    Seconds(now + Backoff.Wait(attempts, cfg.base, cfg.max))
  }

  function FailedRow(cfg: Config, row: Row, cause: Option<string>, now: int): Row {
    row.(status := Failed,
         attempts := row.attempts + 1,
         nextAttemptAt := RetryAt(cfg, row.attempts + 1, now),
         lastError := if cause.Some? then cause.value else "")
  }

  function FailTx(cfg: Config, db: Db, id: int, cause: Option<string>, now: int): Db {
    if !InStatus(db, id, Processing) then
      db
    else
      db.(queue := db.queue[id := FailedRow(cfg, db.queue[id], cause, now)])
  }

  // ----- maintenance -----

  function RetriedRow(row: Row, now: int): Row {
    row.(status := Pending, attempts := 0, nextAttemptAt := Seconds(now), lastError := "")
  }

  function ProcessingScans(db: Db, ids: set<int>): set<int> {
    set s | s in ids && s in db.scans && db.scans[s].status == Processing
  }

  function RetryTx(db: Db, id: int, now: int): Db {
    if !InStatus(db, id, Failed) then
      db
    else
      MarkScans(db.(queue := db.queue[id := RetriedRow(db.queue[id], now)]),
                ProcessingScans(db, Linked(db, id)), Pending)
  }

  function CleanupIds(cfg: Config, db: Db, inputs: Inputs): set<int> {
    set id | id in db.queue && Retryable(db.queue[id])
      && HasKey(db, id, cfg.norm(inputs.track.artist), cfg.norm(inputs.track.title))
  }

  function CleanupTx(cfg: Config, db: Db, inputs: Inputs): Db {
    DeleteRows(db, CleanupIds(cfg, db, inputs))
  }

  function DoneIds(db: Db): set<int> {
    set id | id in db.queue && db.queue[id].status == Done
  }

  function ClearDoneTx(db: Db): Db {
    DeleteRows(db, DoneIds(db))
  }

  // ----- cancelling a library -----

  function ScansOf(db: Db, lib: int): set<int> {
    set s | s in db.scans && db.scans[s].libraryId == lib
  }

  /** The rows that a cancel of `lib` looks at. */
  predicate Candidate(db: Db, lib: int, id: int) {
    id in db.queue && Retryable(db.queue[id]) && exists s :: s in ScansOf(db, lib) && (id, s) in db.links
  }

  function PathOf(scan: ScanRow): OutputPath {
    OutputPath(scan.outdir, scan.filename)
  }

  /** The destinations that a row's links to other libraries still ask for. */
  function KeepSet(db: Db, id: int, lib: int): set<OutputPath> {
    set s | s in db.scans && (id, s) in db.links && db.scans[s].libraryId != lib :: PathOf(db.scans[s])
  }

  function Filter(paths: seq<OutputPath>, keep: set<OutputPath>): (r: seq<OutputPath>)
    ensures |r| <= |paths|
    ensures |r| == |paths| ==> r == paths
    ensures forall p :: p in r <==> p in paths && p in keep
  {
    if paths == [] then
      []
    else
      (if paths[0] in keep then [paths[0]] else []) + Filter(paths[1..], keep)
  }

  function Kept(db: Db, lib: int, id: int): seq<OutputPath>
    requires id in db.queue
  {
    Filter(db.queue[id].outputPaths, KeepSet(db, id, lib))
  }

  predicate CancelDeletes(db: Db, lib: int, id: int) {
    Candidate(db, lib, id) && Kept(db, lib, id) == []
  }

  predicate CancelUpdates(db: Db, lib: int, id: int) {
    Candidate(db, lib, id) && Kept(db, lib, id) != [] && |Kept(db, lib, id)| != |db.queue[id].outputPaths|
  }

  /** Cancelling `lib`, restricted to the given rows. */
  function CancelRows(db: Db, lib: int, ids: set<int>): Db {
    var gone := set id | id in ids && CancelDeletes(db, lib, id);
    DeleteRows(
      db.(queue := map id | id in db.queue ::
        if id in ids && CancelUpdates(db, lib, id) then db.queue[id].(outputPaths := Kept(db, lib, id)) else db.queue[id]),
      gone)
  }

  function Candidates(db: Db, lib: int): set<int> {
    set id | id in db.queue && Candidate(db, lib, id)
  }

  function CancelTx(db: Db, lib: int): Db {
    CancelRows(db, lib, Candidates(db, lib))
  }

  function ClearLibraryTx(db: Db, lib: int): Db {
    DeleteScans(db, ScansOf(db, lib))
  }

  /** `scan clear`: cancel, then clear, in one transaction. */
  function ScanClearTx(db: Db, lib: int): Db {
    ClearLibraryTx(CancelTx(db, lib), lib)
  }

  // ----- the scan ledger -----

  predicate HasFile(db: Db, s: int, lib: int, path: string) {
    s in db.scans && db.scans[s].libraryId == lib && db.scans[s].filePath == path
  }

  ghost function FindFile(db: Db, lib: int, path: string): Option<int> {
    if exists s :: HasFile(db, s, lib, path) then
      var s :| HasFile(db, s, lib, path);
      Some(s)
    else
      None
  }

  function StatusOrPending(text: StatusText): Status {
    if text.Named? then text.status else Pending
  }

  ghost function UpsertOne(db: Db, lib: int, res: ScanInput, force: bool): Db {
    match FindFile(db, lib, res.filePath)
    case Some(s) =>
      if s in db.scans then
        var status := if force then StatusOrPending(res.status) else db.scans[s].status;
        db.(scans := db.scans[s := ScanRow(lib, res.filePath, res.artist, res.title, res.outdir, res.filename, status)])
      else db
    case None =>
      db.(scans := db.scans[db.nextScan :=
            ScanRow(lib, res.filePath, res.artist, res.title, res.outdir, res.filename, StatusOrPending(res.status))],
          nextScan := db.nextScan + 1)
  }

  ghost function UpsertAll(db: Db, lib: int, results: seq<ScanInput>, force: bool): Db {
    if results == [] then db else UpsertOne(UpsertAll(db, lib, results[..|results| - 1], force), lib, results[|results| - 1], force)
  }

  predicate AnyUnknown(results: seq<ScanInput>) {
    exists res :: res in results && res.status.Unknown?
  }

  /** All results or, if one carries a status the schema refuses, none. */
  ghost function UpsertTx(db: Db, lib: int, results: seq<ScanInput>, force: bool): Db {
    if AnyUnknown(results) then db else UpsertAll(db, lib, results, force)
  }

  predicate SetStatusAccepted(db: Db, ids: seq<int>, text: StatusText) {
    ids == [] || (text.Named? && forall s :: s in ids ==> s in db.scans)
  }

  function SetStatusTx(db: Db, ids: seq<int>, text: StatusText): Db {
    if ids != [] && SetStatusAccepted(db, ids, text) then MarkScans(db, Elements(ids), text.status) else db
  }

  // ----- the lyrics cache -----

  function KeyFor(cfg: Config, artist: string, title: string, album: string): CacheKey {
    CacheKey(cfg.norm(artist), cfg.norm(title), cfg.norm(album))
  }

  /** Insert or overwrite; a trigger stamps overwritten entries. */
  function StoreTx(cfg: Config, db: Db, artist: string, title: string, album: string, lyrics: string, now: int): Db {
    var k := KeyFor(cfg, artist, title, album);
    if k in db.cache then
      db.(cache := db.cache[k := CacheRow(db.cache[k].id, lyrics, Seconds(now))])
    else
      db.(cache := db.cache[k := CacheRow(db.nextCache, lyrics, Seconds(now))], nextCache := db.nextCache + 1)
  }

  // ----- steps and runs -----

  datatype Op =
    | Enqueue(inputs: Inputs, priority: int, now: int)
    | Dequeue(now: int)
    | Complete(id: int, now: int)
    | Release(id: int)
    | Fail(id: int, cause: Option<string>, now: int)
    | Retry(id: int, now: int)
    | Cleanup(inputs: Inputs)
    | ClearDone
    | Cancel(lib: int)
    | ClearLibrary(lib: int)
    | ScanClear(lib: int)
    | Upsert(lib: int, results: seq<ScanInput>, force: bool)
    | SetStatus(ids: seq<int>, text: StatusText)
    | Store(artist: string, title: string, album: string, lyrics: string, now: int)

  ghost function Step(cfg: Config, db: Db, op: Op): Db {
    match op
    case Enqueue(inputs, priority, now) => EnqueueTx(cfg, db, inputs, priority, now)
    case Dequeue(now) => DequeueTx(db, now)
    case Complete(id, now) => CompleteTx(db, id, now)
    case Release(id) => ReleaseTx(db, id)
    case Fail(id, cause, now) => FailTx(cfg, db, id, cause, now)
    case Retry(id, now) => RetryTx(db, id, now)
    case Cleanup(inputs) => CleanupTx(cfg, db, inputs)
    case ClearDone => ClearDoneTx(db)
    case Cancel(lib) => CancelTx(db, lib)
    case ClearLibrary(lib) => ClearLibraryTx(db, lib)
    case ScanClear(lib) => ScanClearTx(db, lib)
    case Upsert(lib, results, force) => UpsertTx(db, lib, results, force)
    case SetStatus(ids, text) => SetStatusTx(db, ids, text)
    case Store(artist, title, album, lyrics, now) => StoreTx(cfg, db, artist, title, album, lyrics, now)
  }

  /** The tables after a whole run of interleaved transactions. */
  ghost function Exec(cfg: Config, db: Db, ops: seq<Op>): Db {
    if ops == [] then db else Step(cfg, Exec(cfg, db, ops[..|ops| - 1]), ops[|ops| - 1])
  }
}

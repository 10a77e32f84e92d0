/** The tables of the service's database, as values, and the values that travel between them. */
module Schema {
  import Backoff
  import opened Normalize

  datatype Option<+T> = None | Some(value: T)

  datatype Error = NoRows | NotRetryable | ConstraintFailed | UnsupportedStatus | MissingDestination

  datatype Result<+T> = Ok(value: T) | Err(error: Error)

  datatype Status = Pending | Processing | Done | Failed

  /** A status column value supplied as text: empty, one of the four names, or anything else. */
  datatype StatusText = Blank | Named(status: Status) | Unknown

  datatype OutputPath = OutputPath(outdir: string, filename: string)

  datatype Track = Track(artist: string, title: string, album: string)

  datatype Inputs = Inputs(
    track: Track,
    outdir: string,
    filename: string,
    sourcePath: string,
    outputPaths: seq<OutputPath>,
    scanResultId: int)

  const PRIORITY_WEBHOOK: int := 10

  /** A work_queue row. An empty `outputPaths` stands for the empty text and for the empty list. */
  datatype Row = Row(
    artist: string,
    title: string,
    artistKey: string,
    titleKey: string,
    outdir: string,
    filename: string,
    sourcePath: string,
    outputPaths: seq<OutputPath>,
    scanResultId: Option<int>,
    status: Status,
    priority: int,
    attempts: int,
    nextAttemptAt: int,
    lastError: string,
    createdAt: int,
    completedAt: Option<int>)

  datatype ScanRow = ScanRow(
    libraryId: int,
    filePath: string,
    artist: string,
    title: string,
    outdir: string,
    filename: string,
    status: Status)

  /** What a library scan reports about one file. */
  datatype ScanInput = ScanInput(
    filePath: string,
    artist: string,
    title: string,
    outdir: string,
    filename: string,
    status: StatusText)

  datatype CacheKey = CacheKey(artist: string, title: string, album: string)

  datatype CacheRow = CacheRow(id: int, lyrics: string, updatedAt: int)

  /** The whole database. `links` is the junction of work_queue and scan_results. */
  datatype Db = Db(
    queue: map<int, Row>,
    scans: map<int, ScanRow>,
    links: set<(int, int)>,
    cache: map<CacheKey, CacheRow>,
    nextRow: int,
    nextScan: int,
    nextCache: int)

  const EMPTY: Db := Db(map[], map[], {}, map[], 1, 1, 1)

  /** What the queue is configured with: the key normalizer and the backoff bounds. */
  datatype Config = Config(norm: Normalizer, base: int, max: int)

  /** Timestamps are stored as text with whole seconds: a clock reading is floored. */
  function Seconds(nanos: int): int {
    nanos / Backoff.SECOND
  }

  /** A queue item as handed to a caller. */
  datatype WorkItem = WorkItem(
    id: int,
    inputs: Inputs,
    status: Status,
    priority: int,
    attempts: int,
    nextAttemptAt: int,
    lastError: string,
    createdAt: int,
    completedAt: Option<int>)

  /** The list of destinations, falling back to the single one. */
  function PathsOrDefault(paths: seq<OutputPath>, outdir: string, filename: string): (r: seq<OutputPath>)
    ensures r != []
    ensures paths != [] ==> r == paths
  {
    if paths == [] then [OutputPath(outdir, filename)] else paths
  }

  /** Reading a row back: the album is not stored, and a missing link reads as zero. */
  function ToItem(id: int, row: Row): WorkItem {
    WorkItem(
      id,
      Inputs(
        Track(row.artist, row.title, ""),
        row.outdir,
        row.filename,
        row.sourcePath,
        PathsOrDefault(row.outputPaths, row.outdir, row.filename),
        if row.scanResultId.Some? then row.scanResultId.value else 0),
      row.status,
      row.priority,
      row.attempts,
      row.nextAttemptAt,
      row.lastError,
      row.createdAt,
      row.completedAt)
  }

  // ----- the invariant -----

  predicate Retryable(row: Row) {
    row.status == Pending || row.status == Failed
  }

  /** One row is internally consistent. */
  predicate RowOk(cfg: Config, row: Row) {
    && row.artistKey == cfg.norm(row.artist)
    && row.titleKey == cfg.norm(row.title)
    && (row.completedAt.Some? <==> row.status == Done)
    && 0 <= row.attempts
    && (row.status == Failed ==> 1 <= row.attempts)
    && (row.lastError != "" ==> row.status == Failed || row.status == Processing)
    && row.outputPaths != []
  }

  predicate SameKey(a: Row, b: Row) {
    a.artistKey == b.artistKey && a.titleKey == b.titleKey
  }

  predicate SameFile(a: ScanRow, b: ScanRow) {
    a.libraryId == b.libraryId && a.filePath == b.filePath
  }

  ghost predicate RowsOk(cfg: Config, db: Db) {
    && (forall id :: id in db.queue ==> 0 < id < db.nextRow && RowOk(cfg, db.queue[id]))
    && (forall id, id' :: id in db.queue && id' in db.queue && SameKey(db.queue[id], db.queue[id']) ==> id == id')
  }

  ghost predicate ScansOk(db: Db) {
    && 0 < db.nextScan
    && (forall s :: s in db.scans ==> 0 < s < db.nextScan)
    && (forall s, s' :: s in db.scans && s' in db.scans && SameFile(db.scans[s], db.scans[s']) ==> s == s')
  }

  /** Links are referentially sound, and a row's own link is one of them. */
  ghost predicate LinksOk(db: Db) {
    && (forall l :: l in db.links ==> l.0 in db.queue && l.1 in db.scans)
    && (forall id :: id in db.queue && db.queue[id].scanResultId.Some? ==>
          (id, db.queue[id].scanResultId.value) in db.links)
  }

  ghost predicate CacheOk(db: Db) {
    && (forall k :: k in db.cache ==> db.cache[k].id < db.nextCache)
    && (forall k, k' :: k in db.cache && k' in db.cache && db.cache[k].id == db.cache[k'].id ==> k == k')
  }

  ghost predicate Inv(cfg: Config, db: Db) {
    0 < db.nextRow && RowsOk(cfg, db) && ScansOk(db) && LinksOk(db) && CacheOk(db)
  }
}

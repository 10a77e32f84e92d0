/** One turn of the worker as a function of the tables, the worker's two counters and everything
    the outside world answers, and what holds over any number of turns. */
module Turns {
  import opened Normalize
  import opened Schema
  import opened Transactions
  import opened Invariant
  import opened Cache
  import opened Ordering
  import opened Runs

  /** A song: its metadata, and its lyrics as one text. */
  datatype Song = Song(track: Track, body: string)

  datatype Fetch = Fetched(song: Song) | RateLimited | Unauthorized | FetchFailed

  datatype Verdict = Accepted | Rejected | VerifyFailed

  /** What the outside answers during one turn, and what the clock reads at each use. */
  datatype Env = Env(
    canceled: bool,
    gateNow: int, claimNow: int, tripNow: int, storeNow: int, failNow: int, completeNow: int,
    dequeueFails: bool, exactFails: bool, fallbackFails: bool,
    fetch: Fetch, verdict: Verdict, storeFails: bool,
    writeFails: nat -> bool,
    completeFails: bool, failFails: bool, releaseFails: bool)

  /** The worker's fixed configuration; cached songs are encoded and decoded by abstract functions. */
  datatype Setup = Setup(
    cfg: Config,
    encode: Song -> string,
    decode: (string, Track) -> Song,
    verifies: bool,
    threshold: real,
    circuitOpenDuration: int)

  datatype Counters = Counters(consecutiveFailures: int, circuitOpenUntil: Option<int>)

  /** How a turn returns to the run loop. */
  datatype Exit = Processed | Empty | Canceled | Error

  /** The outcome of a turn: the new tables and counters, and what was done on the way. */
  datatype Turn = Turn(
    db: Db, counters: Counters, exit: Exit,
    claimed: Option<WorkItem>, fetched: bool, tripped: bool, written: seq<OutputPath>)

  // ----- resolving the song -----

  datatype Resolution = Hit(song: Song) | Fresh(song: Song) | Limited | Broken

  ghost function Resolve(k: Setup, db: Db, track: Track, e: Env): Resolution {
    var exact := KeyFor(k.cfg, track.artist, track.title, track.album);
    if e.exactFails then Broken
    else if exact in db.cache then Hit(k.decode(db.cache[exact].lyrics, track))
    else if e.fallbackFails then Broken
    else
      match Latest(db, exact.artist, exact.title)
      case Some(key) => if key in db.cache then Hit(k.decode(db.cache[key].lyrics, track)) else Broken
      case None =>
        match e.fetch
        case Fetched(song) => Fresh(song)
        case RateLimited => Limited
        case Unauthorized => Limited
        case FetchFailed => Broken
  }

  /** The fetcher is asked exactly when both lookups succeed without finding anything. */
  ghost predicate Asks(k: Setup, db: Db, track: Track, e: Env) {
    var exact := KeyFor(k.cfg, track.artist, track.title, track.album);
    !e.exactFails && exact !in db.cache && !e.fallbackFails && Latest(db, exact.artist, exact.title).None?
  }

  ghost function Confidence(k: Setup, want: Track, got: Track): real {
    (ConfidenceOf(k.cfg.norm, want.artist, got.artist) + ConfidenceOf(k.cfg.norm, want.title, got.title)) / 2.0
  }

  ghost predicate MustVerify(k: Setup, item: WorkItem, song: Song) {
    k.verifies && item.inputs.sourcePath != "" && Confidence(k, item.inputs.track, song.track) < k.threshold
  }

  /** The paths written before the first failing one. */
  function Written(paths: seq<OutputPath>, fails: nat -> bool, n: nat): (m: nat)
    requires n <= |paths|
    ensures m <= n
    ensures forall i :: 0 <= i < m ==> !fails(i)
    ensures m < n ==> fails(m)
  {
    if n == 0 then 0
    else
      var m := Written(paths, fails, n - 1);
      if m == n - 1 && !fails(m) then n else m
  }

  // ----- the turn -----

  function Counted(c: Counters): Counters {
    c.(consecutiveFailures := c.consecutiveFailures + 1)
  }

  /** Record a failure on the claimed row. */
  function FailTurn(k: Setup, c: Counters, db: Db, item: WorkItem, cause: string, e: Env, fetched: bool, written: seq<OutputPath>): Turn {
    if e.failFails then
      Turn(db, Counted(c), Error, Some(item), fetched, false, written)
    else
      Turn(FailTx(k.cfg, db, item.id, Some(cause), e.failNow), Counted(c), Processed, Some(item), fetched, false, written)
  }

  /** Write every destination, then settle. */
  ghost function WriteTurn(k: Setup, c: Counters, db: Db, item: WorkItem, e: Env, fetched: bool): Turn {
    var paths := item.inputs.outputPaths;
    var m := Written(paths, e.writeFails, |paths|);
    if m < |paths| then
      FailTurn(k, c, db, item, "write", e, fetched, paths[..m])
    else if e.completeFails then
      FailTurn(k, c, db, item, "complete", e, fetched, paths).(exit := Error)
    else
      Turn(CompleteTx(db, item.id, e.completeNow), c.(consecutiveFailures := 0), Processed, Some(item), fetched, false, paths)
  }

  ghost function WorkTurn(k: Setup, c: Counters, db: Db, item: WorkItem, e: Env): Turn {
    var track := item.inputs.track;
    var fetched := Asks(k, db, track, e);
    match Resolve(k, db, track, e)
    case Limited =>
      var open := c.(circuitOpenUntil := Some(e.tripNow + k.circuitOpenDuration));
      if e.releaseFails then Turn(db, open, Error, Some(item), fetched, true, [])
      else Turn(ReleaseTx(db, item.id), open, Empty, Some(item), fetched, true, [])
    case Broken => FailTurn(k, c, db, item, "song", e, fetched, [])
    case Hit(_) => WriteTurn(k, c, db, item, e, fetched)
    case Fresh(song) =>
      if MustVerify(k, item, song) && e.verdict != Accepted then
        FailTurn(k, c, db, item, "verify", e, fetched, [])
      else if e.storeFails then
        FailTurn(k, c, db, item, "store", e, fetched, [])
      else
        var stored := StoreTx(k.cfg, db, track.artist, track.title, track.album, k.encode(song), e.storeNow);
        WriteTurn(k, c, stored, item, e, fetched)
  }

  function Idle(db: Db, c: Counters, exit: Exit): Turn {
    Turn(db, c, exit, None, false, false, [])
  }

  /** The circuit is open: nothing may be claimed or fetched. */
  predicate Gated(c: Counters, e: Env) {
    c.circuitOpenUntil.Some? && e.gateNow < c.circuitOpenUntil.value
  }

  ghost function TurnOf(k: Setup, c: Counters, db: Db, e: Env): Turn {
    if e.canceled then
      Idle(db, c, Canceled)
    else if Gated(c, e) then
      Idle(db, c, Empty)
    else
      var closed := c.(circuitOpenUntil := None);
      if e.dequeueFails then Idle(db, closed, Error)
      else
        match NextReady(db, Seconds(e.claimNow))
        case None => Idle(db, closed, Empty)
        case Some(id) =>
          var claimed := DequeueTx(db, e.claimNow);
          if id in claimed.queue then WorkTurn(k, closed, claimed, ToItem(id, claimed.queue[id]), e)
          else Idle(db, closed, Error)
  }

  // ----- settlement -----

  ghost predicate SameOtherRows(db: Db, db': Db, id: int) {
    && db'.queue.Keys == db.queue.Keys && db'.links == db.links
    && forall other :: other in db.queue && other != id ==> db'.queue[other] == db.queue[other]
  }

  /** The claimed row and what the turn must leave of it. */
  ghost predicate SettledAs(k: Setup, row: Row, after: Row, e: Env, written: seq<OutputPath>, cached: bool) {
    match after.status
    case Done =>
      && after == CompletedRow(row.(status := Processing), e.completeNow)
      && written == PathsOrDefault(row.outputPaths, row.outdir, row.filename) && cached
    case Failed =>
      && after.lastError != "" && after.attempts == row.attempts + 1 && after.nextAttemptAt == RetryAt(k.cfg, row.attempts + 1, e.failNow)
      && after == row.(status := Failed, attempts := after.attempts, nextAttemptAt := after.nextAttemptAt, lastError := after.lastError)
    case Pending =>
      after == row.(status := Pending, lastError := "")
    case Processing => false
  }

  /** The ledger follows the row: its linked results are done if the row is, and otherwise as before. */
  ghost predicate LedgerFollows(before: Db, db: Db, id: int)
    requires id in db.queue
  {
    db.scans == if db.queue[id].status == Done then MarkScans(before, Linked(before, id), Done).scans else before.scans
  }

  /** The queue calls that a turn makes after its claim succeed. */
  predicate QueueCallsSucceed(e: Env) {
    !e.completeFails && !e.failFails && !e.releaseFails
  }

  lemma ClaimIsSettledStep(k: Setup, c: Counters, db: Db, e: Env, id: int)
    requires Inv(k.cfg, db) && NextReady(db, Seconds(e.claimNow)) == Some(id)
    ensures IsNext(db, Seconds(e.claimNow), id) && id in db.queue
    ensures DequeueTx(db, e.claimNow) == db.(queue := db.queue[id := db.queue[id].(status := Processing)])
    ensures Inv(k.cfg, DequeueTx(db, e.claimNow))
  {
    NextIsUnique(db, Seconds(e.claimNow));
    DequeueKeepsInv(k.cfg, db, e.claimNow);
  }

  /** The writing half of a turn: done exactly when every destination was written and the
      completion went through, otherwise failed. */
  lemma WriteSettles(k: Setup, c: Counters, before: Db, db: Db, item: WorkItem, e: Env, fetched: bool)
    requires item.id in before.queue && item.id in db.queue && SameOtherRows(before, db, item.id)
    requires Retryable(before.queue[item.id]) && before.queue[item.id].attempts >= 0
    requires db.queue[item.id] == before.queue[item.id].(status := Processing) && item == ToItem(item.id, db.queue[item.id])
    requires Cached(db, k.cfg.norm(item.inputs.track.artist), k.cfg.norm(item.inputs.track.title))
    requires !e.failFails && db.scans == before.scans
    ensures var t := WriteTurn(k, c, db, item, e, fetched);
      && item.id in t.db.queue && LedgerFollows(before, t.db, item.id) && SameOtherRows(before, t.db, item.id) && t.db.cache == db.cache
      && SettledAs(k, before.queue[item.id], t.db.queue[item.id], e, t.written, true)
      && t.db.queue[item.id].status != Pending
      && (t.db.queue[item.id].status == Done <==> t.written == item.inputs.outputPaths && !e.completeFails)
  {
    var paths := item.inputs.outputPaths;
    var m := Written(paths, e.writeFails, |paths|);
    if m < |paths| {
      assert |paths[..m]| != |paths|;
    } else {
      assert paths[..m] == paths;
    }
  }

  /** The store is the only way a turn changes the cache, and a fetched song is stored only if it
      need not be verified or was accepted. */
  ghost predicate StoreIsVetted(k: Setup, before: Db, t: Turn, e: Env) {
    t.db.cache != before.cache ==>
      && t.claimed.Some? && t.fetched && e.fetch.Fetched?
      && (MustVerify(k, t.claimed.value, e.fetch.song) ==> e.verdict == Accepted)
  }

  /** The turn claimed nothing and changed no table, or it settled the row it claimed. */
  ghost predicate SettlesOnce(k: Setup, db: Db, e: Env, t: Turn) {
    match t.claimed
    case None => t.db == db
    case Some(item) =>
      && item.id in db.queue && IsNext(db, Seconds(e.claimNow), item.id)
      && item == ToItem(item.id, db.queue[item.id].(status := Processing))
      && WorkOutcome(k, db, item, e, t)
  }

  /** A turn that claims a row settles it exactly once: done, failed or pending again, with every
      other row and every link as before. Done means that every claimed destination was written
      and that the row's key is cached; a fetched song is cached only if it need not be verified
      or was accepted. */
  lemma TurnSettles(k: Setup, c: Counters, db: Db, e: Env)
    requires Inv(k.cfg, db) && QueueCallsSucceed(e)
    ensures SettlesOnce(k, db, e, TurnOf(k, c, db, e))
  {
    hide WorkTurn;
    var next := NextReady(db, Seconds(e.claimNow));
    if next.Some? {
      ClaimIsSettledStep(k, c, db, e, next.value);
      var claimed := DequeueTx(db, e.claimNow);
      WorkSettles(k, c.(circuitOpenUntil := None), db, claimed, ToItem(next.value, claimed.queue[next.value]), e);
    }
  }

  /** db is `before` with the row of `item` claimed. */
  ghost predicate Claims(k: Setup, before: Db, db: Db, item: WorkItem) {
    && Inv(k.cfg, before) && Inv(k.cfg, db)
    && item.id in before.queue && Retryable(before.queue[item.id])
    && db == before.(queue := before.queue[item.id := before.queue[item.id].(status := Processing)])
    && item == ToItem(item.id, db.queue[item.id])
  }

  ghost predicate WorkOutcome(k: Setup, before: Db, item: WorkItem, e: Env, t: Turn)
    requires item.id in before.queue
  {
    && t.claimed == Some(item)
    && item.id in t.db.queue && SameOtherRows(before, t.db, item.id) && LedgerFollows(before, t.db, item.id)
    && SettledAs(k, before.queue[item.id], t.db.queue[item.id], e, t.written,
                 Cached(t.db, before.queue[item.id].artistKey, before.queue[item.id].titleKey))
    && (t.db.queue[item.id].status == Pending <==> t.tripped)
    && t.exit == (if t.tripped then Empty else Processed)
    && StoreIsVetted(k, before, t, e)
  }

  lemma FailSettles(k: Setup, c: Counters, before: Db, db: Db, item: WorkItem, cause: string, e: Env, fetched: bool)
    requires Claims(k, before, db, item) && QueueCallsSucceed(e) && cause != ""
    ensures WorkOutcome(k, before, item, e, FailTurn(k, c, db, item, cause, e, fetched, []))
  {
  }

  lemma HitSettles(k: Setup, c: Counters, before: Db, db: Db, item: WorkItem, e: Env, fetched: bool)
    requires Claims(k, before, db, item) && QueueCallsSucceed(e)
    requires Cached(db, k.cfg.norm(item.inputs.track.artist), k.cfg.norm(item.inputs.track.title))
    ensures WorkOutcome(k, before, item, e, WriteTurn(k, c, db, item, e, fetched))
  {
    WriteSettles(k, c, before, db, item, e, fetched);
    SameCache(db, WriteTurn(k, c, db, item, e, fetched).db, before.queue[item.id].artistKey, before.queue[item.id].titleKey);
  }

  lemma FreshSettles(k: Setup, c: Counters, before: Db, db: Db, item: WorkItem, e: Env, song: Song)
    requires Claims(k, before, db, item) && QueueCallsSucceed(e)
    requires e.fetch == Fetched(song) && (MustVerify(k, item, song) ==> e.verdict == Accepted)
    ensures var track := item.inputs.track;
      var stored := StoreTx(k.cfg, db, track.artist, track.title, track.album, k.encode(song), e.storeNow);
      WorkOutcome(k, before, item, e, WriteTurn(k, c, stored, item, e, true))
  {
    var track := item.inputs.track;
    var stored := StoreTx(k.cfg, db, track.artist, track.title, track.album, k.encode(song), e.storeNow);
    StoreCaches(k.cfg, db, track, k.encode(song), e.storeNow);
    WriteSettles(k, c, before, stored, item, e, true);
    SameCache(stored, WriteTurn(k, c, stored, item, e, true).db, before.queue[item.id].artistKey, before.queue[item.id].titleKey);
  }

  /** A hit means that the key is cached; a fresh or refused answer means that the fetcher was asked. */
  lemma ResolveMeans(k: Setup, db: Db, track: Track, e: Env)
    requires Inv(k.cfg, db)
    ensures Resolve(k, db, track, e).Hit? ==> Cached(db, k.cfg.norm(track.artist), k.cfg.norm(track.title)) && !Asks(k, db, track, e)
    ensures Resolve(k, db, track, e).Fresh? ==> Asks(k, db, track, e) && e.fetch == Fetched(Resolve(k, db, track, e).song)
    ensures Resolve(k, db, track, e).Limited? <==> Asks(k, db, track, e) && (e.fetch.RateLimited? || e.fetch.Unauthorized?)
  {
    var key := KeyFor(k.cfg, track.artist, track.title, track.album);
    LatestIsUnique(k.cfg, db, key.artist, key.title);
    if key in db.cache {
      assert EntryFor(db, key.artist, key.title, key);
    }
  }

  lemma WorkSettles(k: Setup, c: Counters, before: Db, db: Db, item: WorkItem, e: Env)
    requires Claims(k, before, db, item) && QueueCallsSucceed(e)
    ensures WorkOutcome(k, before, item, e, WorkTurn(k, c, db, item, e))
  {
    var track := item.inputs.track;
    var fetched := Asks(k, db, track, e);
    ResolveMeans(k, db, track, e);
    match Resolve(k, db, track, e)
    case Limited => assert Find(ReleaseTx(db, item.id), item.id) == Some(before.queue[item.id].(status := Pending, lastError := ""));
    case Broken => FailSettles(k, c, before, db, item, "song", e, fetched);
    case Hit(_) => HitSettles(k, c, before, db, item, e, fetched);
    case Fresh(song) =>
      FailSettles(k, c, before, db, item, "verify", e, fetched);
      FailSettles(k, c, before, db, item, "store", e, fetched);
      if MustVerify(k, item, song) ==> e.verdict == Accepted {
        FreshSettles(k, c, before, db, item, e, song);
      }
  }

  lemma WriteKeepsInv(k: Setup, c: Counters, db: Db, item: WorkItem, e: Env, fetched: bool)
    requires Inv(k.cfg, db)
    ensures Inv(k.cfg, WriteTurn(k, c, db, item, e, fetched).db)
  {
    hide Inv, FailTx, CompleteTx;
    SettleKeepsInv(k.cfg, db, item.id, Some("write"), e.failNow);
    SettleKeepsInv(k.cfg, db, item.id, Some("complete"), e.failNow);
    SettleKeepsInv(k.cfg, db, item.id, None, e.completeNow);
  }

  lemma WorkKeepsInv(k: Setup, c: Counters, db: Db, item: WorkItem, e: Env)
    requires Inv(k.cfg, db)
    ensures Inv(k.cfg, WorkTurn(k, c, db, item, e).db)
  {
    hide Inv, FailTx, ReleaseTx, WriteTurn, StoreTx, Asks, Resolve, MustVerify;
    var track := item.inputs.track;
    SettleKeepsInv(k.cfg, db, item.id, Some("song"), e.failNow);
    SettleKeepsInv(k.cfg, db, item.id, Some("verify"), e.failNow);
    SettleKeepsInv(k.cfg, db, item.id, Some("store"), e.failNow);
    match Resolve(k, db, track, e)
    case Hit(_) => WriteKeepsInv(k, c, db, item, e, Asks(k, db, track, e));
    case Fresh(song) =>
      StoreKeepsInv(k.cfg, db, track.artist, track.title, track.album, k.encode(song), e.storeNow);
      WriteKeepsInv(k, c, StoreTx(k.cfg, db, track.artist, track.title, track.album, k.encode(song), e.storeNow),
                    item, e, Asks(k, db, track, e));
    case _ =>
  }

  /** Whatever the outside answers and whichever calls fail, a turn keeps the tables consistent. */
  lemma TurnKeepsInv(k: Setup, c: Counters, db: Db, e: Env)
    requires Inv(k.cfg, db)
    ensures Inv(k.cfg, TurnOf(k, c, db, e).db)
  {
    hide Inv, WorkTurn;
    var next := NextReady(db, Seconds(e.claimNow));
    if next.Some? {
      ClaimIsSettledStep(k, c, db, e, next.value);
      var claimed := DequeueTx(db, e.claimNow);
      WorkKeepsInv(k, c.(circuitOpenUntil := None), claimed, ToItem(next.value, claimed.queue[next.value]), e);
    }
  }

  /** The failure counter over a turn, whichever calls fail: reset by a completion, unchanged if
      nothing was claimed or the circuit tripped, and otherwise one more. */
  ghost predicate CountsFailures(c: Counters, t: Turn) {
    t.counters.consecutiveFailures ==
      if t.claimed.None? || t.tripped then c.consecutiveFailures
      else if InStatus(t.db, t.claimed.value.id, Done) then 0
      else c.consecutiveFailures + 1
  }

  lemma TurnCountsFailures(k: Setup, c: Counters, db: Db, e: Env)
    requires Inv(k.cfg, db)
    ensures CountsFailures(c, TurnOf(k, c, db, e))
  {
    hide WorkTurn;
    var next := NextReady(db, Seconds(e.claimNow));
    if next.Some? {
      ClaimIsSettledStep(k, c, db, e, next.value);
      var claimed := DequeueTx(db, e.claimNow);
      WorkCounts(k, c.(circuitOpenUntil := None), claimed, ToItem(next.value, claimed.queue[next.value]), e);
    }
  }

  lemma WorkCounts(k: Setup, c: Counters, db: Db, item: WorkItem, e: Env)
    requires InStatus(db, item.id, Processing)
    ensures CountsFailures(c, WorkTurn(k, c, db, item, e))
    ensures WorkTurn(k, c, db, item, e).claimed == Some(item)
  {
    hide Resolve, Asks, MustVerify, FailTurn, WriteTurn;
    var fetched := Asks(k, db, item.inputs.track, e);
    FailCounts(k, c, db, item, "song", e, fetched, []);
    FailCounts(k, c, db, item, "verify", e, fetched, []);
    FailCounts(k, c, db, item, "store", e, fetched, []);
    WriteCounts(k, c, db, item, e, fetched);
    match Resolve(k, db, item.inputs.track, e)
    case Fresh(song) =>
      var track := item.inputs.track;
      WriteCounts(k, c, StoreTx(k.cfg, db, track.artist, track.title, track.album, k.encode(song), e.storeNow), item, e, fetched);
    case _ =>
  }

  /** Neither recording a failure nor writing moves the circuit. */
  ghost predicate KeepsCircuit(c: Counters, item: WorkItem, t: Turn, fetched: bool) {
    t.claimed == Some(item) && t.fetched == fetched && !t.tripped && t.counters.circuitOpenUntil == c.circuitOpenUntil
  }

  lemma FailCounts(k: Setup, c: Counters, db: Db, item: WorkItem, cause: string, e: Env, fetched: bool, written: seq<OutputPath>)
    requires InStatus(db, item.id, Processing)
    ensures var t := FailTurn(k, c, db, item, cause, e, fetched, written);
      CountsFailures(c, t) && KeepsCircuit(c, item, t, fetched)
  {
  }

  lemma WriteCounts(k: Setup, c: Counters, db: Db, item: WorkItem, e: Env, fetched: bool)
    requires InStatus(db, item.id, Processing)
    ensures var t := WriteTurn(k, c, db, item, e, fetched);
      CountsFailures(c, t) && KeepsCircuit(c, item, t, fetched)
  {
    hide FailTurn, Written;
    var paths := item.inputs.outputPaths;
    var m := Written(paths, e.writeFails, |paths|);
    FailCounts(k, c, db, item, "write", e, fetched, paths[..m]);
    FailCounts(k, c, db, item, "complete", e, fetched, paths);
  }
}

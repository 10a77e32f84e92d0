/** Why every done row has a cache entry, in every run of the whole system: other transactions may
    come between any two of the worker's. */
module Completions {
  import opened Schema
  import opened Transactions
  import opened Invariant
  import opened Cache
  import opened Ordering
  import opened Runs
  import opened Turns

  // ----- completions and the cache -----

  /** A completion happens only under a cached key. */
  lemma CompleteKeepsDoneCached(cfg: Config, db: Db, id: int, now: int)
    requires Inv(cfg, db) && DoneCached(db)
    requires InStatus(db, id, Processing) ==> Cached(db, db.queue[id].artistKey, db.queue[id].titleKey)
    ensures DoneCached(CompleteTx(db, id, now))
  {
    var db' := CompleteTx(db, id, now);
    forall r | InStatus(db', r, Done)
      ensures Cached(db', db'.queue[r].artistKey, db'.queue[r].titleKey)
    {
      assert r == id || InStatus(db, r, Done);
      SameCache(db, db', db.queue[r].artistKey, db.queue[r].titleKey);
    }
  }

  /** Only a completion makes a row done. */
  lemma DoneWasDone(cfg: Config, db: Db, op: Op, r: int)
    requires Inv(cfg, db) && !op.Complete?
    requires Changed(cfg, db, op, r).Some? && Changed(cfg, db, op, r).value.status == Done
    ensures InStatus(db, r, Done) && SameKey(db.queue[r], Changed(cfg, db, op, r).value)
  {
    if op.Enqueue? {
      LookupExact(cfg, db, cfg.norm(op.inputs.track.artist), cfg.norm(op.inputs.track.title));
    }
  }

  /** The cache never loses an entry. */
  lemma CacheOnlyGrows(cfg: Config, db: Db, op: Op)
    ensures db.cache.Keys <= Step(cfg, db, op).cache.Keys
  {
    if op.Upsert? {
      UpsertCounters(db, op.lib, op.results, op.force);
    }
  }

  lemma StaysCached(db: Db, db': Db, artistKey: string, titleKey: string)
    requires db.cache.Keys <= db'.cache.Keys && Cached(db, artistKey, titleKey)
    ensures Cached(db', artistKey, titleKey)
  {
    var k :| EntryFor(db, artistKey, titleKey, k);
    assert k in db'.cache.Keys;
    assert EntryFor(db', artistKey, titleKey, k);
  }

  lemma StepKeepsDoneCached(cfg: Config, db: Db, op: Op)
    requires Inv(cfg, db) && DoneCached(db) && !op.Complete?
    ensures DoneCached(Step(cfg, db, op))
  {
    var db' := Step(cfg, db, op);
    CacheOnlyGrows(cfg, db, op);
    forall r | InStatus(db', r, Done)
      ensures Cached(db', db'.queue[r].artistKey, db'.queue[r].titleKey)
    {
      RowStep(cfg, db, op, r);
      DoneWasDone(cfg, db, op, r);
      StaysCached(db, db', db.queue[r].artistKey, db.queue[r].titleKey);
    }
  }

  // ----- the worker in small steps -----

  /** What the worker holds between its transactions: its copy of the claimed item, and whether it
      has found or stored a song for it. */
  datatype Held = Held(item: WorkItem, resolved: bool)

  datatype System = System(db: Db, held: Option<Held>)

  /** A step of the whole system: one transaction of some other actor, or one of the worker's. The
      worker abandons its item when the call that should settle it fails. */
  datatype SmallStep =
    | Other(op: Op)
    | Claim(now: int)
    | Hit
    | Save(lyrics: string, now: int)
    | Finish(now: int)
    | GiveUp(cause: Option<string>, now: int)
    | GiveBack
    | Abandon

  /** Only the worker completes rows, and only it settles the row it holds. It completes only after
      a lookup found the item's keys in the cache, or a store put them there. */
  ghost predicate Enabled(cfg: Config, s: System, step: SmallStep) {
    match step
    case Other(op) => !op.Complete? && (s.held.Some? ==> !Settles(op, s.held.value.item.id))
    case Claim(_) => s.held.None?
    case Hit => s.held.Some? && ItemCached(cfg, s.db, s.held.value.item)
    case Finish(_) => s.held.Some? && s.held.value.resolved
    case _ => s.held.Some?
  }

  ghost predicate ItemCached(cfg: Config, db: Db, item: WorkItem) {
    Cached(db, cfg.norm(item.inputs.track.artist), cfg.norm(item.inputs.track.title))
  }

  ghost function ClaimStep(db: Db, now: int): System {
    var next := NextReady(db, Seconds(now));
    var db' := DequeueTx(db, now);
    System(db', if next.Some? && next.value in db'.queue then Some(Held(ToItem(next.value, db'.queue[next.value]), false)) else None)
  }

  ghost function SaveStep(cfg: Config, db: Db, item: WorkItem, lyrics: string, now: int): System {
    var track := item.inputs.track;
    System(StoreTx(cfg, db, track.artist, track.title, track.album, lyrics, now), Some(Held(item, true)))
  }

  /** A disabled step changes nothing. */
  ghost function Do(cfg: Config, s: System, step: SmallStep): System {
    if !Enabled(cfg, s, step) then s
    else
      match step
      case Other(op) => s.(db := Step(cfg, s.db, op))
      case Claim(now) => ClaimStep(s.db, now)
      case Hit => s.(held := Some(s.held.value.(resolved := true)))
      case Save(lyrics, now) => SaveStep(cfg, s.db, s.held.value.item, lyrics, now)
      case Finish(now) => System(CompleteTx(s.db, s.held.value.item.id, now), None)
      case GiveUp(cause, now) => System(FailTx(cfg, s.db, s.held.value.item.id, cause, now), None)
      case GiveBack => System(ReleaseTx(s.db, s.held.value.item.id), None)
      case Abandon => s.(held := None)
  }

  ghost function DoAll(cfg: Config, s: System, steps: seq<SmallStep>): System
    decreases |steps|
  {
    if steps == [] then s else DoAll(cfg, Do(cfg, s, steps[0]), steps[1..])
  }

  // ----- what every run keeps -----

  /** The held row is still claimed, the worker's copy of it accurate, and if the worker has
      resolved the song then the row's keys are cached. */
  ghost predicate HeldOk(db: Db, held: Held) {
    var id := held.item.id;
    && InStatus(db, id, Processing)
    && SameWork(ToItem(id, db.queue[id]).inputs, held.item.inputs)
    && (held.resolved ==> Cached(db, db.queue[id].artistKey, db.queue[id].titleKey))
  }

  /** Up to the row's own scan link. */
  predicate SameWork(a: Inputs, b: Inputs) {
    a == b.(scanResultId := a.scanResultId)
  }

  ghost predicate SystemOk(cfg: Config, s: System) {
    Inv(cfg, s.db) && DoneCached(s.db) && (s.held.Some? ==> HeldOk(s.db, s.held.value))
  }

  lemma OtherKeepsHeld(cfg: Config, db: Db, held: Held, op: Op)
    requires Inv(cfg, db) && HeldOk(db, held) && !Settles(op, held.item.id)
    ensures HeldOk(Step(cfg, db, op), held)
  {
    hide Step, Changed;
    var id := held.item.id;
    ClaimedRowChange(cfg, db, op, id);
    RowStep(cfg, db, op, id);
    CacheOnlyGrows(cfg, db, op);
    if held.resolved {
      StaysCached(db, Step(cfg, db, op), db.queue[id].artistKey, db.queue[id].titleKey);
    }
  }

  lemma ClaimKeeps(cfg: Config, db: Db, now: int)
    requires Inv(cfg, db) && DoneCached(db)
    ensures SystemOk(cfg, ClaimStep(db, now))
  {
    hide Inv, DoneCached;
    DequeueKeepsInv(cfg, db, now);
    StepKeepsDoneCached(cfg, db, Op.Dequeue(now));
    NextIsUnique(db, Seconds(now));
  }

  lemma SaveKeeps(cfg: Config, db: Db, held: Held, lyrics: string, now: int)
    requires Inv(cfg, db) && DoneCached(db) && HeldOk(db, held)
    ensures SystemOk(cfg, SaveStep(cfg, db, held.item, lyrics, now))
  {
    hide DoneCached;
    var track := held.item.inputs.track;
    StoreKeepsInv(cfg, db, track.artist, track.title, track.album, lyrics, now);
    StepKeepsDoneCached(cfg, db, Op.Store(track.artist, track.title, track.album, lyrics, now));
    StoreCaches(cfg, db, track, lyrics, now);
  }

  lemma SettlingKeeps(cfg: Config, db: Db, held: Held, cause: Option<string>, now: int)
    requires Inv(cfg, db) && DoneCached(db) && HeldOk(db, held)
    ensures var id := held.item.id;
      && Inv(cfg, FailTx(cfg, db, id, cause, now)) && DoneCached(FailTx(cfg, db, id, cause, now))
      && Inv(cfg, ReleaseTx(db, id)) && DoneCached(ReleaseTx(db, id))
      && Inv(cfg, CompleteTx(db, id, now)) && (held.resolved ==> DoneCached(CompleteTx(db, id, now)))
  {
    hide Inv, DoneCached, FailTx, ReleaseTx, CompleteTx;
    var id := held.item.id;
    SettleKeepsInv(cfg, db, id, cause, now);
    StepKeepsDoneCached(cfg, db, Op.Fail(id, cause, now));
    StepKeepsDoneCached(cfg, db, Op.Release(id));
    if held.resolved {
      CompleteKeepsDoneCached(cfg, db, id, now);
    }
  }

  lemma DoKeeps(cfg: Config, s: System, step: SmallStep)
    requires SystemOk(cfg, s)
    ensures SystemOk(cfg, Do(cfg, s, step))
  {
    hide Step, ClaimStep, SaveStep, CompleteTx, FailTx, ReleaseTx, DoneCached;
    if Enabled(cfg, s, step) {
      match step
      case Other(op) =>
        hide Inv;
        StepKeepsInv(cfg, s.db, op);
        StepKeepsDoneCached(cfg, s.db, op);
        if s.held.Some? {
          OtherKeepsHeld(cfg, s.db, s.held.value, op);
        }
      case Claim(now) => ClaimKeeps(cfg, s.db, now);
      case Save(lyrics, now) => SaveKeeps(cfg, s.db, s.held.value, lyrics, now);
      case Finish(now) => SettlingKeeps(cfg, s.db, s.held.value, None, now);
      case GiveUp(cause, now) => SettlingKeeps(cfg, s.db, s.held.value, cause, now);
      case GiveBack => SettlingKeeps(cfg, s.db, s.held.value, None, 0);
      case _ =>
    }
  }

  lemma {:induction false} RunKeepsSystem(cfg: Config, s: System, steps: seq<SmallStep>)
    requires SystemOk(cfg, s)
    ensures SystemOk(cfg, DoAll(cfg, s, steps))
    decreases |steps|
  {
    hide SystemOk, Do;
    if steps != [] {
      DoKeeps(cfg, s, steps[0]);
      RunKeepsSystem(cfg, Do(cfg, s, steps[0]), steps[1..]);
    }
  }

  /** In every run of the system from an empty database, with transactions of other actors between
      any two of the worker's, the tables are consistent, every done row's key has a cache entry,
      and the row that the worker holds is still claimed, as it was handed out. */
  lemma SystemKeepsDoneCached(cfg: Config, steps: seq<SmallStep>)
    ensures var s := DoAll(cfg, System(EMPTY, None), steps);
      && Inv(cfg, s.db) && DoneCached(s.db)
      && (s.held.Some? ==> HeldOk(s.db, s.held.value))
  {
    EmptyIsConsistent(cfg);
    RunKeepsSystem(cfg, System(EMPTY, None), steps);
  }

  /** So whenever, in such a run, the worker comes to complete its item, the completion succeeds,
      and it makes done a row whose keys are cached and whose destinations are those it wrote. */
  lemma InterleavedCompletionIsCached(cfg: Config, steps: seq<SmallStep>, now: int)
    requires Enabled(cfg, DoAll(cfg, System(EMPTY, None), steps), Finish(now))
    ensures var s := DoAll(cfg, System(EMPTY, None), steps);
      var (item, db) := (s.held.value.item, Do(cfg, s, Finish(now)).db);
      && InStatus(s.db, item.id, Processing) && InStatus(db, item.id, Done)
      && Cached(db, db.queue[item.id].artistKey, db.queue[item.id].titleKey)
      && ToItem(item.id, db.queue[item.id]).inputs.outputPaths == item.inputs.outputPaths
  {
    hide DoneCached, Inv;
    SystemKeepsDoneCached(cfg, steps);
    var s := DoAll(cfg, System(EMPTY, None), steps);
    var id := s.held.value.item.id;
    SameCache(s.db, CompleteTx(s.db, id, now), s.db.queue[id].artistKey, s.db.queue[id].titleKey);
  }

  // ----- a turn of the worker is such a run -----

  function FailSteps(cause: string, e: Env): seq<SmallStep> {
    if e.failFails then [Abandon] else [GiveUp(Some(cause), e.failNow)]
  }

  function WriteSteps(item: WorkItem, e: Env): seq<SmallStep> {
    var paths := item.inputs.outputPaths;
    if Written(paths, e.writeFails, |paths|) < |paths| then FailSteps("write", e)
    else if e.completeFails then FailSteps("complete", e)
    else [Finish(e.completeNow)]
  }

  ghost function WorkSteps(k: Setup, db: Db, item: WorkItem, e: Env): seq<SmallStep> {
    match Resolve(k, db, item.inputs.track, e)
    case Limited => if e.releaseFails then [Abandon] else [GiveBack]
    case Broken => FailSteps("song", e)
    case Hit(_) => [SmallStep.Hit] + WriteSteps(item, e)
    case Fresh(song) =>
      if MustVerify(k, item, song) && e.verdict != Accepted then FailSteps("verify", e)
      else if e.storeFails then FailSteps("store", e)
      else [Save(k.encode(song), e.storeNow)] + WriteSteps(item, e)
  }

  ghost function TurnSteps(k: Setup, c: Counters, db: Db, e: Env): seq<SmallStep> {
    if e.canceled || Gated(c, e) || e.dequeueFails then []
    else
      var s := ClaimStep(db, e.claimNow);
      [Claim(e.claimNow)] + if s.held.Some? then WorkSteps(k, s.db, s.held.value.item, e) else []
  }

  lemma DoFirst(cfg: Config, s: System, step: SmallStep, rest: seq<SmallStep>)
    ensures DoAll(cfg, s, [step] + rest) == DoAll(cfg, Do(cfg, s, step), rest)
    ensures DoAll(cfg, s, [step]) == Do(cfg, s, step)
  {
    hide Do;
    assert ([step] + rest)[1..] == rest;
    assert [step][1..] == [];
  }

  lemma FailIsSteps(k: Setup, c: Counters, db: Db, held: Held, cause: string, e: Env, fetched: bool, written: seq<OutputPath>)
    ensures DoAll(k.cfg, System(db, Some(held)), FailSteps(cause, e))
         == System(FailTurn(k, c, db, held.item, cause, e, fetched, written).db, None)
  {
    DoFirst(k.cfg, System(db, Some(held)), FailSteps(cause, e)[0], []);
  }

  lemma WriteIsSteps(k: Setup, c: Counters, db: Db, held: Held, e: Env, fetched: bool)
    requires held.resolved
    ensures DoAll(k.cfg, System(db, Some(held)), WriteSteps(held.item, e))
         == System(WriteTurn(k, c, db, held.item, e, fetched).db, None)
  {
    hide Step, StoreTx, ClaimStep, SaveStep;
    var paths := held.item.inputs.outputPaths;
    var m := Written(paths, e.writeFails, |paths|);
    FailIsSteps(k, c, db, held, "write", e, fetched, paths[..m]);
    FailIsSteps(k, c, db, held, "complete", e, fetched, paths);
    DoFirst(k.cfg, System(db, Some(held)), Finish(e.completeNow), []);
  }

  lemma WorkIsSteps(k: Setup, c: Counters, db: Db, held: Held, e: Env)
    requires Inv(k.cfg, db) && !held.resolved
    ensures DoAll(k.cfg, System(db, Some(held)), WorkSteps(k, db, held.item, e))
         == System(WorkTurn(k, c, db, held.item, e).db, None)
  {
    hide Inv, WriteTurn, FailTurn, WriteSteps, FailSteps, MustVerify, Resolve, Asks, ReleaseTx, StoreTx, DoAll;
    var (item, track) := (held.item, held.item.inputs.track);
    var (s, fetched) := (System(db, Some(held)), Asks(k, db, track, e));
    ResolveMeans(k, db, track, e);
    match Resolve(k, db, track, e)
    case Limited => DoFirst(k.cfg, s, if e.releaseFails then Abandon else GiveBack, []);
    case Broken => FailIsSteps(k, c, db, held, "song", e, fetched, []);
    case Hit(_) =>
      DoFirst(k.cfg, s, SmallStep.Hit, WriteSteps(item, e));
      WriteIsSteps(k, c, db, Held(item, true), e, fetched);
    case Fresh(song) =>
      FailIsSteps(k, c, db, held, "verify", e, fetched, []);
      FailIsSteps(k, c, db, held, "store", e, fetched, []);
      DoFirst(k.cfg, s, Save(k.encode(song), e.storeNow), WriteSteps(item, e));
      WriteIsSteps(k, c, SaveStep(k.cfg, db, item, k.encode(song), e.storeNow).db, Held(item, true), e, fetched);
  }

  /** Every turn, whatever the outside answers and whichever calls fail, is a run of small steps
      that starts and ends without a held item: what holds over all interleavings of small steps
      holds of the worker's turns. */
  lemma TurnIsSteps(k: Setup, c: Counters, db: Db, e: Env)
    requires Inv(k.cfg, db)
    ensures DoAll(k.cfg, System(db, None), TurnSteps(k, c, db, e)) == System(TurnOf(k, c, db, e).db, None)
  {
    hide WorkTurn, WorkSteps, Inv, DoAll;
    if !(e.canceled || Gated(c, e) || e.dequeueFails) {
      var s := ClaimStep(db, e.claimNow);
      DoFirst(k.cfg, System(db, None), Claim(e.claimNow), TurnSteps(k, c, db, e)[1..]);
      var next := NextReady(db, Seconds(e.claimNow));
      NextIsUnique(db, Seconds(e.claimNow));
      if next.Some? {
        ClaimIsSettledStep(k, c, db, e, next.value);
        WorkIsSteps(k, c.(circuitOpenUntil := None), s.db, s.held.value, e);
      }
    }
    DoNothing(k.cfg, System(TurnOf(k, c, db, e).db, None));
  }

  lemma DoNothing(cfg: Config, s: System)
    ensures DoAll(cfg, s, []) == s
  {
  }

  /** Whatever the outside answers and whichever calls fail, a turn keeps the tables consistent
      and every done row cached. */
  lemma TurnKeeps(k: Setup, c: Counters, db: Db, e: Env)
    requires Inv(k.cfg, db) && DoneCached(db)
    ensures Inv(k.cfg, TurnOf(k, c, db, e).db) && DoneCached(TurnOf(k, c, db, e).db)
  {
    hide TurnOf, TurnSteps, DoAll, Inv, DoneCached;
    TurnIsSteps(k, c, db, e);
    RunKeepsSystem(k.cfg, System(db, None), TurnSteps(k, c, db, e));
  }
}

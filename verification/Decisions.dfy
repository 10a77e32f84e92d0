/** What a turn decides, read off the tables and the outside's answers alone. */
module Decisions {
  import opened Normalize
  import opened Schema
  import opened Transactions
  import opened Cache
  import opened Ordering
  import opened Turns

  // ----- the answers that matter -----

  /** Some album's entry for the track's artist and title answers a lookup. */
  ghost predicate Found(cfg: Config, db: Db, track: Track, e: Env) {
    var (artistKey, titleKey) := (cfg.norm(track.artist), cfg.norm(track.title));
    !e.exactFails && (CacheKey(artistKey, titleKey, cfg.norm(track.album)) in db.cache
                      || (!e.fallbackFails && Cached(db, artistKey, titleKey)))
  }

  /** Both lookups work and there is no such entry. */
  ghost predicate NotFound(cfg: Config, db: Db, track: Track, e: Env) {
    !e.exactFails && !e.fallbackFails && !Cached(db, cfg.norm(track.artist), cfg.norm(track.title))
  }

  predicate Refused(e: Env) {
    e.fetch.RateLimited? || e.fetch.Unauthorized?
  }

  /** The mean similarity of the two artists and the two titles. */
  ghost function Similarity(norm: Normalizer, want: Track, got: Track): real {
    0.5 * Score(norm(want.artist), norm(got.artist)) + 0.5 * Score(norm(want.title), norm(got.title))
  }

  /** A song that need not be verified: nothing verifies it, there is nothing to compare it with, or
      it is similar enough. */
  ghost predicate GoodMatch(k: Setup, item: WorkItem, song: Song) {
    || !k.verifies
    || item.inputs.sourcePath == ""
    || k.threshold <= Similarity(k.cfg.norm, item.inputs.track, song.track)
  }

  /** A fetched song reaches the cache. */
  ghost predicate Stores(k: Setup, db: Db, item: WorkItem, e: Env) {
    && NotFound(k.cfg, db, item.inputs.track, e) && e.fetch.Fetched?
    && (GoodMatch(k, item, e.fetch.song) || e.verdict == Accepted)
    && !e.storeFails
  }

  ghost predicate Resolved(k: Setup, db: Db, item: WorkItem, e: Env) {
    Found(k.cfg, db, item.inputs.track, e) || Stores(k, db, item, e)
  }

  predicate WritesAll(item: WorkItem, e: Env) {
    forall i: nat :: i < |item.inputs.outputPaths| ==> !e.writeFails(i)
  }

  // ----- the decisions -----

  /** The claimed row's status: done if the song was resolved, written everywhere and completed;
      given back after a refused fetch; failed otherwise; and still processing if the call that
      should have settled it fails. */
  ghost function FinalStatus(k: Setup, db: Db, item: WorkItem, e: Env): Status {
    if Resolved(k, db, item, e) && WritesAll(item, e) && !e.completeFails then Done
    else if NotFound(k.cfg, db, item.inputs.track, e) && Refused(e) then
      if e.releaseFails then Processing else Pending
    else
      if e.failFails then Processing else Failed
  }

  /** A failed release, a failed record of a failure, and a failed completion surface as errors. */
  ghost function FinalExit(k: Setup, db: Db, item: WorkItem, e: Env): Exit {
    match FinalStatus(k, db, item, e)
    case Done => Processed
    case Pending => Empty
    case Processing => Error
    case Failed => if Resolved(k, db, item, e) && WritesAll(item, e) then Error else Processed
  }

  /** The new cache entry, if any, holds the fetched song under the item's keys. */
  ghost function FinalCache(k: Setup, db: Db, item: WorkItem, e: Env): map<CacheKey, CacheRow> {
    var track := item.inputs.track;
    if Stores(k, db, item, e) then
      db.cache[CacheKey(k.cfg.norm(track.artist), k.cfg.norm(track.title), k.cfg.norm(track.album)) :=
                 CacheRow(db.nextCache, k.encode(e.fetch.song), Seconds(e.storeNow))]
    else
      db.cache
  }

  /** The destinations up to the first that fails, or none for want of a song. */
  ghost predicate WritesUpToFailure(k: Setup, db: Db, item: WorkItem, e: Env, written: seq<OutputPath>) {
    if Resolved(k, db, item, e) then
      && written <= item.inputs.outputPaths
      && (forall i: nat :: i < |written| ==> !e.writeFails(i))
      && (|written| < |item.inputs.outputPaths| ==> e.writeFails(|written|))
    else
      written == []
  }

  ghost predicate DecidesWork(k: Setup, db: Db, item: WorkItem, e: Env, t: Turn) {
    && t.claimed == Some(item) && t.fetched == NotFound(k.cfg, db, item.inputs.track, e)
    && InStatus(t.db, item.id, FinalStatus(k, db, item, e))
    && t.exit == FinalExit(k, db, item, e)
    && t.db.cache == FinalCache(k, db, item, e)
    && WritesUpToFailure(k, db, item, e, t.written)
    && (t.db.queue[item.id].status == Processing ==> t.db.queue == db.queue && t.db.scans == db.scans)
  }

  // ----- the turn makes them -----

  lemma FailDecides(k: Setup, c: Counters, db: Db, item: WorkItem, cause: string, e: Env, fetched: bool, written: seq<OutputPath>)
    requires InStatus(db, item.id, Processing)
    ensures var t := FailTurn(k, c, db, item, cause, e, fetched, written);
      && t.claimed == Some(item) && t.fetched == fetched && t.written == written && t.db.cache == db.cache
      && InStatus(t.db, item.id, if e.failFails then Processing else Failed)
      && t.exit == (if e.failFails then Error else Processed)
      && (e.failFails ==> t.db == db)
  {
  }

  /** The writing half, once the song is resolved. */
  ghost predicate DecidesWrite(db: Db, item: WorkItem, e: Env, fetched: bool, t: Turn) {
    && t.claimed == Some(item) && t.fetched == fetched && t.db.cache == db.cache
    && InStatus(t.db, item.id, if WritesAll(item, e) && !e.completeFails then Done else if e.failFails then Processing else Failed)
    && t.exit == (if WritesAll(item, e) then if e.completeFails then Error else Processed else if e.failFails then Error else Processed)
    && t.written <= item.inputs.outputPaths
    && (forall i: nat :: i < |t.written| ==> !e.writeFails(i))
    && (|t.written| < |item.inputs.outputPaths| ==> e.writeFails(|t.written|))
    && (t.db.queue[item.id].status == Processing ==> t.db == db)
  }

  lemma WriteDecides(k: Setup, c: Counters, db: Db, item: WorkItem, e: Env, fetched: bool)
    requires InStatus(db, item.id, Processing)
    ensures DecidesWrite(db, item, e, fetched, WriteTurn(k, c, db, item, e, fetched))
  {
    hide FailTurn;
    var paths := item.inputs.outputPaths;
    var m := Written(paths, e.writeFails, |paths|);
    FailDecides(k, c, db, item, "write", e, fetched, paths[..m]);
    FailDecides(k, c, db, item, "complete", e, fetched, paths);
  }

  /** How the song is resolved, from the tables and the answers. */
  lemma ResolveDecides(k: Setup, db: Db, track: Track, e: Env)
    requires Inv(k.cfg, db)
    ensures Resolve(k, db, track, e).Hit? <==> Found(k.cfg, db, track, e)
    ensures Asks(k, db, track, e) <==> NotFound(k.cfg, db, track, e)
    ensures Resolve(k, db, track, e).Fresh? <==> NotFound(k.cfg, db, track, e) && e.fetch.Fetched?
    ensures Resolve(k, db, track, e).Fresh? ==> Resolve(k, db, track, e).song == e.fetch.song
    ensures Resolve(k, db, track, e).Limited? <==> NotFound(k.cfg, db, track, e) && Refused(e)
  {
    var key := KeyFor(k.cfg, track.artist, track.title, track.album);
    LatestIsUnique(k.cfg, db, key.artist, key.title);
    if key in db.cache {
      assert EntryFor(db, key.artist, key.title, key);
    }
  }

  lemma VerifyDecides(k: Setup, item: WorkItem, song: Song)
    ensures MustVerify(k, item, song) <==> !GoodMatch(k, item, song)
  {
  }

  lemma FreshDecides(k: Setup, db: Db, item: WorkItem, e: Env)
    requires NotFound(k.cfg, db, item.inputs.track, e)
    ensures var track := item.inputs.track;
      var key := KeyFor(k.cfg, track.artist, track.title, track.album);
      && key !in db.cache && !Found(k.cfg, db, track, e)
  {
    var track := item.inputs.track;
    var key := KeyFor(k.cfg, track.artist, track.title, track.album);
    if key in db.cache {
      assert EntryFor(db, key.artist, key.title, key);
    }
  }

  lemma WorkDecides(k: Setup, c: Counters, db: Db, item: WorkItem, e: Env)
    requires Inv(k.cfg, db) && InStatus(db, item.id, Processing)
    ensures WorkTurn(k, c, db, item, e).claimed == Some(item)
    ensures DecidesWork(k, db, item, e, WorkTurn(k, c, db, item, e))
  {
    hide Inv, Resolve, Asks, MustVerify, GoodMatch, WriteTurn, FailTurn, Found, NotFound;
    var (track, fetched) := (item.inputs.track, Asks(k, db, item.inputs.track, e));
    ResolveDecides(k, db, track, e);
    FailDecides(k, c, db, item, "song", e, fetched, []);
    match Resolve(k, db, track, e)
    case Hit(_) =>
      if NotFound(k.cfg, db, track, e) {
        FreshDecides(k, db, item, e);
      }
      WriteDecides(k, c, db, item, e, fetched);
    case Fresh(song) =>
      FreshDecides(k, db, item, e);
      VerifyDecides(k, item, song);
      FailDecides(k, c, db, item, "verify", e, fetched, []);
      FailDecides(k, c, db, item, "store", e, fetched, []);
      WriteDecides(k, c, StoreTx(k.cfg, db, track.artist, track.title, track.album, k.encode(song), e.storeNow), item, e, fetched);
    case _ =>
      if NotFound(k.cfg, db, track, e) {
        FreshDecides(k, db, item, e);
      }
  }

  /** A turn that is canceled, gated, or cannot reach the queue leaves the tables alone, and so does
      one that finds no row due. Otherwise it claims the first due row, and the answers decide its
      status, the new cache entry, the destinations written and how the turn returns. */
  lemma TurnDecides(k: Setup, c: Counters, db: Db, e: Env)
    requires Inv(k.cfg, db)
    ensures var t := TurnOf(k, c, db, e);
      if e.canceled then
        t == Turn(db, c, Canceled, None, false, false, [])
      else if c.circuitOpenUntil.Some? && e.gateNow < c.circuitOpenUntil.value then
        t == Turn(db, c, Empty, None, false, false, [])
      else if e.dequeueFails || forall id :: id in db.queue ==> !Due(db.queue[id], Seconds(e.claimNow)) then
        t == Turn(db, c.(circuitOpenUntil := None), if e.dequeueFails then Error else Empty, None, false, false, [])
      else
        && t.claimed.Some?
        && var id := t.claimed.value.id;
           && FirstDue(db, Seconds(e.claimNow), id)
           && t.claimed.value == ToItem(id, db.queue[id].(status := Processing))
           && DecidesWork(k, db.(queue := db.queue[id := db.queue[id].(status := Processing)]), t.claimed.value, e, t)
  {
    hide WorkTurn, DecidesWork, FirstDue, Due;
    var next := NextReady(db, Seconds(e.claimNow));
    NextIsFirstDue(db, Seconds(e.claimNow), if next.Some? then next.value else 0);
    if next.Some? {
      ClaimIsSettledStep(k, c, db, e, next.value);
      var claimed := DequeueTx(db, e.claimNow);
      var item := ToItem(next.value, claimed.queue[next.value]);
      WorkDecides(k, c.(circuitOpenUntil := None), claimed, item, e);
    }
  }

  /** A song that needs verification and is not accepted never reaches the cache. */
  lemma OnlyVettedIsStored(k: Setup, c: Counters, db: Db, e: Env)
    requires Inv(k.cfg, db) && TurnOf(k, c, db, e).db.cache != db.cache
    ensures var t := TurnOf(k, c, db, e);
      && t.claimed.Some? && e.fetch.Fetched?
      && var (item, song) := (t.claimed.value, e.fetch.song);
         k.verifies && item.inputs.sourcePath != ""
         && (ConfidenceOf(k.cfg.norm, item.inputs.track.artist, song.track.artist)
             + ConfidenceOf(k.cfg.norm, item.inputs.track.title, song.track.title)) / 2.0 < k.threshold
         ==> e.verdict == Accepted
  {
    hide TurnOf, Inv, FirstDue, Score;
    TurnDecides(k, c, db, e);
  }

  /** A song that needs no verification is not affected by one: the turn is the same for every
      verdict, and so is a turn that fetches no song. */
  lemma VerdictOnlyMattersIfNeeded(k: Setup, c: Counters, db: Db, e: Env, verdict: Verdict)
    requires Inv(k.cfg, db)
    requires var t := TurnOf(k, c, db, e);
      t.claimed.Some? && t.fetched && e.fetch.Fetched? ==>
        || !k.verifies || t.claimed.value.inputs.sourcePath == ""
        || (ConfidenceOf(k.cfg.norm, t.claimed.value.inputs.track.artist, e.fetch.song.track.artist)
            + ConfidenceOf(k.cfg.norm, t.claimed.value.inputs.track.title, e.fetch.song.track.title)) / 2.0 >= k.threshold
    ensures TurnOf(k, c, db, e.(verdict := verdict)) == TurnOf(k, c, db, e)
  {
    hide WorkTurn, Inv;
    var next := NextReady(db, Seconds(e.claimNow));
    if next.Some? && !e.canceled && !Gated(c, e) && !e.dequeueFails {
      ClaimIsSettledStep(k, c, db, e, next.value);
      var claimed := DequeueTx(db, e.claimNow);
      var item := ToItem(next.value, claimed.queue[next.value]);
      WorkDecides(k, c.(circuitOpenUntil := None), claimed, item, e);
      WorkIgnoresVerdict(k, c.(circuitOpenUntil := None), claimed, item, e, verdict);
    }
  }

  lemma WorkIgnoresVerdict(k: Setup, c: Counters, db: Db, item: WorkItem, e: Env, verdict: Verdict)
    requires Inv(k.cfg, db)
    requires NotFound(k.cfg, db, item.inputs.track, e) && e.fetch.Fetched? ==> GoodMatch(k, item, e.fetch.song)
    ensures WorkTurn(k, c, db, item, e.(verdict := verdict)) == WorkTurn(k, c, db, item, e)
  {
    hide Inv, NotFound, GoodMatch, MustVerify, Found;
    ResolveDecides(k, db, item.inputs.track, e);
    var r := Resolve(k, db, item.inputs.track, e);
    if r.Fresh? {
      VerifyDecides(k, item, r.song);
    }
  }
}

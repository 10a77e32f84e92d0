/** The worker as an object: two counters updated in place, driving the shared tables. */
module Worker {
  import opened Normalize
  import opened Schema
  import opened Transactions
  import opened Cache
  import opened Ordering
  import opened Tables
  import opened Turns
  import opened Draining

  /** The exact entry if there is one, and otherwise the most recent one for artist and title. */
  ghost predicate HitKey(db: Db, exact: CacheKey, k: CacheKey) {
    && k in db.cache
    && if exact in db.cache then k == exact else MostRecent(db, exact.artist, exact.title, k)
  }

  class Worker {
    const queue: DBQueue
    const cache: CacheRepo
    const encode: Song -> string
    const decode: (string, Track) -> Song
    const verifies: bool
    const threshold: real
    const circuitOpenDuration: int
    var consecutiveFailures: int
    var circuitOpenUntil: Option<int>

    constructor (queue: DBQueue, cache: CacheRepo, encode: Song -> string, decode: (string, Track) -> Song,
                 verifies: bool, threshold: real, circuitOpenDuration: int)
      requires queue.db == cache.db && queue.Cfg() == cache.cfg && queue.norm == cache.norm && queue.Valid()
      ensures this.queue == queue && this.cache == cache && Valid()
      ensures consecutiveFailures == 0 && circuitOpenUntil == None
    {
      this.queue, this.cache, this.encode, this.decode := queue, cache, encode, decode;
      this.verifies, this.threshold, this.circuitOpenDuration := verifies, threshold, circuitOpenDuration;
      consecutiveFailures, circuitOpenUntil := 0, None;
    }

    ghost predicate Valid()
      reads queue.db
    {
      && queue.db == cache.db && queue.Cfg() == cache.cfg && queue.norm == cache.norm
      && queue.Valid()
    }

    function Config(): Setup {
      Setup(queue.Cfg(), encode, decode, verifies, threshold, circuitOpenDuration)
    }

    function State(): Counters
      reads this
    {
      Counters(consecutiveFailures, circuitOpenUntil)
    }

    /** Exact lookup, then fallback lookup, then the fetcher. */
    method ResolveSong(track: Track, e: Env) returns (r: Resolution, fetched: bool)
      requires Valid()
      ensures r == Resolve(Config(), queue.db.State(), track, e)
      ensures fetched == Asks(Config(), queue.db.State(), track, e)
      ensures r.Hit? ==> exists k ::
        && HitKey(queue.db.State(), CacheKey(queue.norm(track.artist), queue.norm(track.title), queue.norm(track.album)), k)
        && r.song == decode(queue.db.cache[k].lyrics, track)
      ensures r.Fresh? ==> e.fetch == Fetched(r.song)
    {
      if e.exactFails {
        return Broken, false;
      }
      var exact := cache.LookupExact(track.artist, track.title, track.album);
      if exact.Ok? {
        return Hit(decode(exact.value, track)), false;
      }
      if e.fallbackFails {
        return Broken, false;
      }
      var fallback := cache.LookupFallback(track.artist, track.title);
      if fallback.Ok? {
        return Hit(decode(fallback.value, track)), false;
      }
      match e.fetch
      case Fetched(song) => return Fresh(song), true;
      case RateLimited => return Limited, true;
      case Unauthorized => return Limited, true;
      case FetchFailed => return Broken, true;
    }

    /** The mean of the two similarities; a rejected or failed verification stops the turn. */
    method Vetted(item: WorkItem, song: Song, e: Env) returns (ok: bool)
      ensures ok <==> !MustVerify(Config(), item, song) || e.verdict == Accepted
      ensures ok <==>
        || !verifies || item.inputs.sourcePath == "" || e.verdict == Accepted
        || 2.0 * threshold <= ConfidenceOf(queue.norm, item.inputs.track.artist, song.track.artist)
                              + ConfidenceOf(queue.norm, item.inputs.track.title, song.track.title)
    {
      var artistScore := MatchConfidence(queue.norm, item.inputs.track.artist, song.track.artist);
      var titleScore := MatchConfidence(queue.norm, item.inputs.track.title, song.track.title);
      var confidence := (artistScore + titleScore) / 2.0;
      if !verifies || item.inputs.sourcePath == "" || confidence >= threshold {
        return true;
      }
      return e.verdict == Accepted;
    }

    /** Write the destinations in order, stopping at the first that fails. */
    method WriteAll(paths: seq<OutputPath>, e: Env) returns (written: nat)
      ensures written == Written(paths, e.writeFails, |paths|)
    {
      written := 0;
      while written < |paths| && !e.writeFails(written)
        invariant written <= |paths|
        invariant forall i: nat :: i < written ==> !e.writeFails(i)
      {
        written := written + 1;
      }
    }

    method RecordFailure(item: WorkItem, cause: string, e: Env, fetched: bool, written: seq<OutputPath>) returns (exit: Exit)
      requires Valid()
      modifies this, queue.db
      ensures Valid()
      ensures Turn(queue.db.State(), State(), exit, Some(item), fetched, false, written)
           == FailTurn(Config(), old(State()), old(queue.db.State()), item, cause, e, fetched, written)
    {
      consecutiveFailures := consecutiveFailures + 1;
      if e.failFails {
        return Error;
      }
      var _ := queue.Fail(item.id, Some(cause), e.failNow);
      return Processed;
    }

    /** Write, then complete; if completing fails, the row is marked failed instead. */
    method WriteAndSettle(item: WorkItem, e: Env, fetched: bool) returns (exit: Exit, written: seq<OutputPath>)
      requires Valid() && InStatus(queue.db.State(), item.id, Processing)
      modifies this, queue.db
      ensures Valid()
      ensures Turn(queue.db.State(), State(), exit, Some(item), fetched, false, written)
           == WriteTurn(Config(), old(State()), old(queue.db.State()), item, e, fetched)
    {
      var paths := item.inputs.outputPaths;
      var m := WriteAll(paths, e);
      if m < |paths| {
        exit := RecordFailure(item, "write", e, fetched, paths[..m]);
        return exit, paths[..m];
      }
      if e.completeFails {
        var _ := RecordFailure(item, "complete", e, fetched, paths);
        return Error, paths;
      }
      var _ := queue.Complete(item.id, e.completeNow);
      consecutiveFailures := 0;
      return Processed, paths;
    }

    method Work(item: WorkItem, e: Env) returns (exit: Exit, fetched: bool, tripped: bool, written: seq<OutputPath>)
      requires Valid() && InStatus(queue.db.State(), item.id, Processing)
      modifies this, queue.db
      ensures Valid()
      ensures Turn(queue.db.State(), State(), exit, Some(item), fetched, tripped, written)
           == WorkTurn(Config(), old(State()), old(queue.db.State()), item, e)
    {
      hide WriteTurn, FailTurn, Resolve, MustVerify, Inv;
      tripped, written := false, [];
      var resolution;
      resolution, fetched := ResolveSong(item.inputs.track, e);
      match resolution
      case Limited =>
        tripped := true;
        circuitOpenUntil := Some(e.tripNow + circuitOpenDuration);
        if e.releaseFails {
          exit := Error;
        } else {
          var _ := queue.Release(item.id);
          exit := Empty;
        }
      case Broken =>
        exit := RecordFailure(item, "song", e, fetched, []);
      case Hit(_) =>
        exit, written := WriteAndSettle(item, e, fetched);
      case Fresh(song) =>
        var ok := Vetted(item, song, e);
        if !ok {
          exit := RecordFailure(item, "verify", e, fetched, []);
        } else if e.storeFails {
          exit := RecordFailure(item, "store", e, fetched, []);
        } else {
          var track := item.inputs.track;
          cache.Store(track.artist, track.title, track.album, encode(song), e.storeNow);
          exit, written := WriteAndSettle(item, e, fetched);
        }
    }

    /** Claim and process one ready item, unless canceled or gated by the open circuit. */
    method RunOnce(e: Env) returns (exit: Exit, claimed: Option<WorkItem>, fetched: bool, tripped: bool, written: seq<OutputPath>)
      requires Valid()
      modifies this, queue.db
      ensures Valid()
      ensures Turn(queue.db.State(), State(), exit, claimed, fetched, tripped, written)
           == TurnOf(Config(), old(State()), old(queue.db.State()), e)
    {
      hide WorkTurn;
      claimed, fetched, tripped, written := None, false, false, [];
      if e.canceled {
        exit := Canceled;
        return;
      }
      if circuitOpenUntil.Some? {
        if e.gateNow < circuitOpenUntil.value {
          exit := Empty;
          return;
        }
        circuitOpenUntil := None;
      }
      if e.dequeueFails {
        exit := Error;
        return;
      }
      ghost var before := queue.db.State();
      NextIsUnique(before, Seconds(e.claimNow));
      var item := queue.Dequeue(e.claimNow);
      if item.Err? {
        exit := Empty;
        return;
      }
      claimed := Some(item.value);
      exit, fetched, tripped, written := Work(item.value, e);
    }

    /** The run loop, canceled after `limit` turns at the latest: the tables, the counters, the
        claims and the reason for stopping are those of Loop. */
    method Run(env: nat -> Env, limit: nat) returns (claims: seq<int>, exit: Option<Exit>)
      requires Valid()
      modifies this, queue.db
      ensures Valid()
      ensures LoopState(queue.db.State(), State(), claims, exit)
           == Loop(Config(), old(State()), old(queue.db.State()), env, limit)
    {
      hide TurnOf;
      claims, exit := [], None;
      ghost var db, c := queue.db.State(), State();
      var turns := 0;
      while turns < limit && exit.None?
        invariant Valid() && turns <= limit
        invariant LoopState(queue.db.State(), State(), claims, exit) == Loop(Config(), c, db, env, turns)
        decreases limit - turns
      {
        var result, claimed, _, _, _ := RunOnce(env(turns));
        if claimed.Some? {
          claims := claims + [claimed.value.id];
        }
        if result != Processed {
          exit := Some(result);
        }
        turns := turns + 1;
      }
      LoopStaysStopped(Config(), c, db, env, turns, limit);
    }
  }

  lemma {:induction false} LoopStaysStopped(k: Setup, c: Counters, db: Db, env: nat -> Env, m: nat, n: nat)
    requires m <= n && (m < n ==> Loop(k, c, db, env, m).exit.Some?)
    ensures Loop(k, c, db, env, n) == Loop(k, c, db, env, m)
    decreases n
  {
    hide TurnOf;
    if m < n {
      LoopStaysStopped(k, c, db, env, m, n - 1);
    }
  }
}

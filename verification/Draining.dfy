/** The run loop under a frozen clock: which rows it claims, in which order, and when it stops. */
module Draining {
  import Backoff
  import opened Selection
  import opened Schema
  import opened Transactions
  import opened Cache
  import opened Ordering
  import opened Turns
  import opened Circuit

  /** A frozen clock, no cancellation, and no queue call fails. */
  predicate Calm(e: Env, now: int) {
    && !e.canceled && !e.dequeueFails && QueueCallsSucceed(e)
    && e.gateNow == now && e.claimNow == now && e.failNow == now
  }

  // ----- a turn without faults -----

  lemma WorkClaims(k: Setup, c: Counters, db: Db, item: WorkItem, e: Env)
    ensures WorkTurn(k, c, db, item, e).claimed == Some(item)
  {
  }

  /** Lookups, fetch, verification, store and every write succeed. */
  ghost predicate Faultless(e: Env) {
    && !e.exactFails && !e.fallbackFails && e.fetch.Fetched? && e.verdict == Accepted && !e.storeFails
    && forall i: nat :: !e.writeFails(i)
  }

  lemma FaultlessWrite(k: Setup, c: Counters, db: Db, item: WorkItem, e: Env, fetched: bool)
    requires InStatus(db, item.id, Processing) && Faultless(e) && !e.completeFails
    ensures var t := WriteTurn(k, c, db, item, e, fetched);
      InStatus(t.db, item.id, Done) && t.counters.circuitOpenUntil == c.circuitOpenUntil
  {
  }

  lemma FaultlessWork(k: Setup, c: Counters, db: Db, item: WorkItem, e: Env)
    requires Inv(k.cfg, db) && InStatus(db, item.id, Processing) && Faultless(e) && QueueCallsSucceed(e)
    ensures var t := WorkTurn(k, c, db, item, e);
      InStatus(t.db, item.id, Done) && t.counters.circuitOpenUntil == c.circuitOpenUntil
  {
    hide WriteTurn, FailTurn, Inv;
    var (track, fetched) := (item.inputs.track, Asks(k, db, item.inputs.track, e));
    LatestIsUnique(k.cfg, db, k.cfg.norm(track.artist), k.cfg.norm(track.title));
    match Resolve(k, db, track, e)
    case Hit(_) => FaultlessWrite(k, c, db, item, e, fetched);
    case Fresh(song) =>
      FaultlessWrite(k, c, StoreTx(k.cfg, db, track.artist, track.title, track.album, k.encode(song), e.storeNow), item, e, fetched);
    case _ =>
  }

  lemma FaultlessTurn(k: Setup, c: Counters, db: Db, e: Env, now: int)
    requires Inv(k.cfg, db) && Calm(e, now) && Faultless(e) && !Gated(c, e)
    ensures var t := TurnOf(k, c, db, e);
      && t.counters.circuitOpenUntil.None?
      && (t.claimed.Some? ==> InStatus(t.db, t.claimed.value.id, Done))
  {
    hide WorkTurn, Inv;
    var next := NextReady(db, Seconds(e.claimNow));
    if next.Some? {
      ClaimIsSettledStep(k, c, db, e, next.value);
      var claimed := DequeueTx(db, e.claimNow);
      var item := ToItem(next.value, claimed.queue[next.value]);
      FaultlessWork(k, c.(circuitOpenUntil := None), claimed, item, e);
      WorkClaims(k, c.(circuitOpenUntil := None), claimed, item, e);
    }
  }

  // ----- one turn -----

  /** Backoffs last at least a second: a failed row is not due again at once. */
  predicate BacksOff(cfg: Config) {
    Backoff.SECOND <= cfg.base && Backoff.SECOND <= cfg.max
  }

  lemma WaitIsNotOver(cfg: Config, attempts: int, now: int)
    requires BacksOff(cfg)
    ensures Seconds(now) < RetryAt(cfg, attempts, now)
  {
    Backoff.WaitBounds(attempts, cfg.base, cfg.max);
  }

  /** A calm turn claims the first ready row and takes it, and only it, out of the ready rows; it
      stops only when none is ready or the circuit trips. */
  ghost predicate TakesFirst(db: Db, t: Turn, at: int) {
    if ReadyIds(db, at) == {} then
      t.claimed.None? && t.exit == Empty
    else
      && t.claimed.Some? && IsNext(db, at, t.claimed.value.id)
      && SameOtherRows(db, t.db, t.claimed.value.id)
      && (if t.tripped then t.exit == Empty && t.counters.circuitOpenUntil.Some?
          else t.exit == Processed && t.counters.circuitOpenUntil.None?
               && ReadyIds(t.db, at) == ReadyIds(db, at) - {t.claimed.value.id})
  }

  /** A settled row is not ready again at the same time. */
  lemma SettledIsNotReady(k: Setup, db: Db, e: Env, t: Turn, now: int)
    requires SettlesOnce(k, db, e, t) && t.claimed.Some? && !t.tripped && e.claimNow == e.failNow == now
    requires BacksOff(k.cfg) || InStatus(t.db, t.claimed.value.id, Done)
    ensures ReadyIds(t.db, Seconds(now)) == ReadyIds(db, Seconds(now)) - {t.claimed.value.id}
  {
    var id := t.claimed.value.id;
    if BacksOff(k.cfg) {
      WaitIsNotOver(k.cfg, db.queue[id].attempts + 1, now);
    }
    forall other
      ensures Ready(t.db, Seconds(now), other) <==> Ready(db, Seconds(now), other) && other != id
    {
      if other != id && other in db.queue {
        assert t.db.queue[other] == db.queue[other];
      }
    }
  }

  lemma CalmTurn(k: Setup, c: Counters, db: Db, e: Env, now: int)
    requires Inv(k.cfg, db) && Calm(e, now) && !Gated(c, e)
    requires BacksOff(k.cfg) || Faultless(e)
    ensures Inv(k.cfg, TurnOf(k, c, db, e).db)
    ensures TakesFirst(db, TurnOf(k, c, db, e), Seconds(now))
  {
    TurnKeepsInv(k, c, db, e);
    TurnSettles(k, c, db, e);
    TripOpensCircuit(k, c, db, e);
    ClaimsIfReady(k, c, db, e, now);
    if Faultless(e) {
      FaultlessTurn(k, c, db, e, now);
    }
    CalmOutcome(k, c, db, e, TurnOf(k, c, db, e), now);
  }

  lemma ClaimsIfReady(k: Setup, c: Counters, db: Db, e: Env, now: int)
    requires Inv(k.cfg, db) && Calm(e, now) && !Gated(c, e)
    ensures var t := TurnOf(k, c, db, e);
      if ReadyIds(db, Seconds(now)) == {} then t.claimed.None? && t.exit == Empty else t.claimed.Some?
  {
    hide WorkTurn;
    NextIsUnique(db, Seconds(now));
    if NextReady(db, Seconds(now)).Some? {
      var id := NextReady(db, Seconds(now)).value;
      ClaimIsSettledStep(k, c, db, e, id);
      var claimed := DequeueTx(db, now);
      WorkClaims(k, c.(circuitOpenUntil := None), claimed, ToItem(id, claimed.queue[id]), e);
    }
  }

  lemma CalmOutcome(k: Setup, c: Counters, db: Db, e: Env, t: Turn, now: int)
    requires Calm(e, now) && !Gated(c, e)
    requires BacksOff(k.cfg) || (t.claimed.Some? ==> InStatus(t.db, t.claimed.value.id, Done))
    requires SettlesOnce(k, db, e, t) && TripsOnRefusal(k, c, db, e, t)
    requires if ReadyIds(db, Seconds(now)) == {} then t.claimed.None? && t.exit == Empty else t.claimed.Some?
    ensures TakesFirst(db, t, Seconds(now))
  {
    if t.claimed.Some? && !t.tripped {
      SettledIsNotReady(k, db, e, t, now);
    }
  }

  /** The run loop after at most n turns. */
  datatype LoopState = LoopState(db: Db, counters: Counters, claims: seq<int>, exit: Option<Exit>)

  ghost function After(p: LoopState, t: Turn): LoopState {
    LoopState(t.db, t.counters,
              if t.claimed.Some? then p.claims + [t.claimed.value.id] else p.claims,
              if t.exit == Processed then None else Some(t.exit))
  }

  ghost function Loop(k: Setup, c: Counters, db: Db, env: nat -> Env, n: nat): LoopState {
    if n == 0 then
      LoopState(db, c, [], None)
    else
      var p := Loop(k, c, db, env, n - 1);
      if p.exit.Some? then p
      else
        After(p, TurnOf(k, p.counters, p.db, env(n - 1)))
  }

  /** The turn that the loop makes when it gets that far. */
  ghost function TurnAt(k: Setup, c: Counters, db: Db, env: nat -> Env, i: nat): Turn {
    TurnOf(k, Loop(k, c, db, env, i).counters, Loop(k, c, db, env, i).db, env(i))
  }

  /** The first m turns all ended processed. */
  ghost predicate AllProcessed(k: Setup, c: Counters, db: Db, env: nat -> Env, m: nat) {
    forall i: nat :: i < m ==> TurnAt(k, c, db, env, i).exit == Processed
  }

  /** The loop goes on exactly as long as turns end processed, leaves the tables and counters as its
      last turn did, and stops for that turn's reason. */
  lemma {:induction false} LoopStopsAtFirst(k: Setup, c: Counters, db: Db, env: nat -> Env, n: nat) returns (m: nat)
    ensures m <= n && AllProcessed(k, c, db, env, m)
    ensures var s := Loop(k, c, db, env, n);
      && (s.exit.None? <==> m == n)
      && (m < n ==> s.exit == Some(TurnAt(k, c, db, env, m).exit) != Some(Processed))
      && var turns := if m < n then m + 1 else n;
         && s == Loop(k, c, db, env, turns)
         && (turns == 0 ==> s.db == db && s.counters == c)
         && (0 < turns ==> s.db == TurnAt(k, c, db, env, turns - 1).db && s.counters == TurnAt(k, c, db, env, turns - 1).counters)
  {
    hide TurnOf;
    if n == 0 {
      m := 0;
    } else {
      m := LoopStopsAtFirst(k, c, db, env, n - 1);
      if m == n - 1 && TurnAt(k, c, db, env, m).exit == Processed {
        m := n;
      }
    }
  }

  /** The claims so far are ready rows in strictly ascending claim order, and every row still ready
      is an untouched one that comes after all of them. */
  ghost predicate ClaimedInOrder(db: Db, s: LoopState, at: int) {
    && (forall i, j :: 0 <= i < j < |s.claims| ==> Before(db, s.claims[i], s.claims[j]))
    && (forall i :: 0 <= i < |s.claims| ==> s.claims[i] in ReadyIds(db, at))
    && (forall id :: id in ReadyIds(db, at) && id !in Elements(s.claims) ==>
          && id in ReadyIds(s.db, at) && s.db.queue[id] == db.queue[id]
          && forall i :: 0 <= i < |s.claims| ==> Before(db, s.claims[i], id))
    && (s.exit.None? ==> ReadyIds(s.db, at) == ReadyIds(db, at) - Elements(s.claims))
  }

  lemma ClaimOneMore(db: Db, p: LoopState, s: LoopState, at: int, id: int)
    requires ClaimedInOrder(db, p, at) && p.exit.None? && IsNext(p.db, at, id)
    requires s.claims == p.claims + [id] && SameOtherRows(p.db, s.db, id)
    requires s.exit.None? ==> ReadyIds(s.db, at) == ReadyIds(p.db, at) - {id}
    ensures ClaimedInOrder(db, s, at)
  {
    assert id in ReadyIds(p.db, at);
    assert Elements(s.claims) == Elements(p.claims) + {id};
    forall other | other in ReadyIds(db, at) && other !in Elements(s.claims)
      ensures other in ReadyIds(s.db, at) && s.db.queue[other] == db.queue[other]
      ensures forall i :: 0 <= i < |s.claims| ==> Before(db, s.claims[i], other)
    {
      assert other in ReadyIds(p.db, at);
      assert Before(p.db, id, other);
      assert p.db.queue[id] == db.queue[id];
    }
  }

  /** n turns have claimed n rows in order, or the loop has stopped for one of the two reasons. */
  ghost predicate Drains(db: Db, s: LoopState, n: nat, at: int) {
    && ClaimedInOrder(db, s, at)
    && match s.exit
       case None => |s.claims| == n <= |ReadyIds(db, at)|
       case Some(exit) => exit == Empty && (Elements(s.claims) == ReadyIds(db, at) || s.counters.circuitOpenUntil.Some?)
  }

  lemma DrainStep(db: Db, p: LoopState, t: Turn, n: nat, at: int)
    requires Drains(db, p, n, at) && p.exit.None? && TakesFirst(p.db, t, at)
    requires t.claimed.None? ==> t.db == p.db
    ensures Drains(db, After(p, t), n + 1, at)
  {
    var s := After(p, t);
    ClaimsAreReady(db, p, at);
    if t.claimed.Some? {
      ClaimOneMore(db, p, s, at, t.claimed.value.id);
      ClaimsAreReady(db, s, at);
    }
  }

  lemma CalmLoopStep(k: Setup, db: Db, p: LoopState, e: Env, n: nat, now: int)
    requires Inv(k.cfg, p.db) && Drains(db, p, n, Seconds(now)) && p.exit.None?
    requires Calm(e, now) && (BacksOff(k.cfg) || Faultless(e))
    ensures var s := After(p, TurnOf(k, p.counters, p.db, e));
      Inv(k.cfg, s.db) && Drains(db, s, n + 1, Seconds(now))
  {
    hide TurnOf, Inv;
    if Gated(p.counters, e) {
      GatedTurnIsIdle(k, p.counters, p.db, e);
    } else {
      CalmTurn(k, p.counters, p.db, e, now);
      TurnSettles(k, p.counters, p.db, e);
      DrainStep(db, p, TurnOf(k, p.counters, p.db, e), n, Seconds(now));
    }
  }

  /** With a frozen clock, no failing queue call, and backoffs of at least a second (or no failure
      at all), the loop claims ready rows once each in claim order. It stops when it has claimed all
      of them, or earlier only because the circuit is or comes open; it never takes more turns than
      there are ready rows, plus one. */
  lemma {:induction false} DrainsInOrder(k: Setup, c: Counters, db: Db, env: nat -> Env, n: nat, now: int)
    requires Inv(k.cfg, db)
    requires forall i: nat :: Calm(env(i), now)
    requires BacksOff(k.cfg) || forall i: nat :: Faultless(env(i))
    ensures Inv(k.cfg, Loop(k, c, db, env, n).db)
    ensures Drains(db, Loop(k, c, db, env, n), n, Seconds(now))
  {
    hide TurnOf;
    if n != 0 {
      DrainsInOrder(k, c, db, env, n - 1, now);
      var p := Loop(k, c, db, env, n - 1);
      if p.exit.None? {
        CalmLoopStep(k, db, p, env(n - 1), n - 1, now);
      }
    }
  }

  /** Distinct claims, all from the ready rows: there are at most as many. */
  lemma ClaimsAreReady(db: Db, s: LoopState, at: int)
    requires ClaimedInOrder(db, s, at)
    ensures Elements(s.claims) <= ReadyIds(db, at) && |s.claims| == |Elements(s.claims)| <= |ReadyIds(db, at)|
    ensures s.exit.None? && ReadyIds(s.db, at) == {} ==> Elements(s.claims) == ReadyIds(db, at)
  {
    forall i, j | 0 <= i < j < |s.claims|
      ensures s.claims[i] != s.claims[j]
    {
      assert Before(db, s.claims[i], s.claims[j]);
    }
    DistinctCount(s.claims);
    forall id | id in Elements(s.claims)
      ensures id in ReadyIds(db, at)
    {
      var i :| 0 <= i < |s.claims| && s.claims[i] == id;
    }
    SubsetCount(Elements(s.claims), ReadyIds(db, at));
  }

  lemma {:induction false} DistinctCount(ids: seq<int>)
    requires forall i, j :: 0 <= i < j < |ids| ==> ids[i] != ids[j]
    ensures |Elements(ids)| == |ids|
  {
    if ids == [] {
      assert Elements(ids) == {};
    } else {
      var rest, last := ids[..|ids| - 1], ids[|ids| - 1];
      DistinctCount(rest);
      assert last !in rest;
      assert ids == rest + [last];
      assert Elements(ids) == Elements(rest) + {last};
    }
  }

  lemma {:induction false} SubsetCount(a: set<int>, b: set<int>)
    requires a <= b
    ensures |a| <= |b|
  {
    assert b == a + (b - a);
    assert |b| == |a| + |b - a|;
  }

  // ----- what becomes of the claimed rows -----

  /** A claimed row as its turn left it: done, failed with one attempt more, or given back. */
  ghost predicate TurnLeft(k: Setup, row: Row, after: Row, e: Env) {
    exists written: seq<OutputPath> :: SettledAs(k, row, after, e, written, true)
  }

  /** A scan result is linked to a claimed row that ended done. */
  ghost predicate DoneByLoop(db: Db, s: LoopState, scan: int) {
    exists id :: id in Elements(s.claims) && (id, scan) in db.links && InStatus(s.db, id, Done)
  }

  /** Each claimed row is as its turn settled it and every other row and link as before; the ledger
      differs exactly in the results linked to rows that ended done. */
  ghost predicate LoopOutcome(k: Setup, db: Db, s: LoopState, env: nat -> Env) {
    && s.db.queue.Keys == db.queue.Keys && s.db.links == db.links && s.db.scans.Keys == db.scans.Keys
    && (forall i: nat :: i < |s.claims| ==>
          s.claims[i] in db.queue && TurnLeft(k, db.queue[s.claims[i]], s.db.queue[s.claims[i]], env(i)))
    && (forall id :: id in db.queue && id !in Elements(s.claims) ==> s.db.queue[id] == db.queue[id])
    && (forall scan :: scan in db.scans ==>
          s.db.scans[scan] == if DoneByLoop(db, s, scan) then db.scans[scan].(status := Done) else db.scans[scan])
  }

  lemma OutcomeStep(k: Setup, db: Db, p: LoopState, t: Turn, env: nat -> Env)
    requires LoopOutcome(k, db, p, env) && p.exit.None?
    requires SettlesOnce(k, p.db, env(|p.claims|), t) && t.claimed.Some? && t.claimed.value.id !in Elements(p.claims)
    ensures LoopOutcome(k, db, After(p, t), env)
  {
    hide TurnLeft, IsNext;
    var (s, id, e) := (After(p, t), t.claimed.value.id, env(|p.claims|));
    TurnLeaves(k, p.db, t, e);
    assert Elements(s.claims) == Elements(p.claims) + {id};
    forall i: nat | i < |s.claims|
      ensures s.claims[i] in db.queue && TurnLeft(k, db.queue[s.claims[i]], s.db.queue[s.claims[i]], env(i))
    {
      if i < |p.claims| {
        var other := p.claims[i];
        assert other in Elements(p.claims) && s.claims[i] == other;
        assert s.db.queue[other] == p.db.queue[other];
      }
    }
    forall scan | scan in db.scans
      ensures s.db.scans[scan] == if DoneByLoop(db, s, scan) then db.scans[scan].(status := Done) else db.scans[scan]
    {
      OneMoreDone(db, p, t, scan);
      assert scan in Linked(p.db, id) <==> (id, scan) in db.links;
    }
  }

  /** What a settling turn does, row by row. */
  lemma TurnLeaves(k: Setup, db: Db, t: Turn, e: Env)
    requires SettlesOnce(k, db, e, t) && t.claimed.Some?
    ensures var id := t.claimed.value.id;
      && id in db.queue && id in t.db.queue && SameOtherRows(db, t.db, id) && LedgerFollows(db, t.db, id)
      && TurnLeft(k, db.queue[id], t.db.queue[id], e)
  {
    var id := t.claimed.value.id;
    assert SettledAs(k, db.queue[id], t.db.queue[id], e, t.written, true);
  }

  lemma OneMoreDone(db: Db, p: LoopState, t: Turn, scan: int)
    requires t.claimed.Some? && t.claimed.value.id !in Elements(p.claims)
    requires SameOtherRows(p.db, t.db, t.claimed.value.id)
    requires forall id :: id in Elements(p.claims) ==> id in p.db.queue
    ensures DoneByLoop(db, After(p, t), scan)
       <==> DoneByLoop(db, p, scan) || ((t.claimed.value.id, scan) in db.links && InStatus(t.db, t.claimed.value.id, Done))
  {
    var (s, id) := (After(p, t), t.claimed.value.id);
    assert Elements(s.claims) == Elements(p.claims) + {id};
    if DoneByLoop(db, p, scan) {
      var other :| other in Elements(p.claims) && (other, scan) in db.links && InStatus(p.db, other, Done);
      assert InStatus(s.db, other, Done) && other in Elements(s.claims);
    }
    if DoneByLoop(db, s, scan) {
      var other :| other in Elements(s.claims) && (other, scan) in db.links && InStatus(s.db, other, Done);
      assert other == id || InStatus(p.db, other, Done);
    }
  }

  /** Under the same conditions as above, every claimed row ends as its turn settled it, every other
      row is untouched, and exactly the scan results linked to rows that ended done become done. */
  lemma {:induction false} DrainSettles(k: Setup, c: Counters, db: Db, env: nat -> Env, n: nat, now: int)
    requires Inv(k.cfg, db) && forall i: nat :: Calm(env(i), now)
    requires BacksOff(k.cfg) || forall i: nat :: Faultless(env(i))
    ensures LoopOutcome(k, db, Loop(k, c, db, env, n), env)
  {
    hide TurnOf, Inv, LoopOutcome, SettlesOnce, Drains;
    if n == 0 {
      NothingClaimed(k, c, db, env);
    } else {
      DrainSettles(k, c, db, env, n - 1, now);
      DrainsInOrder(k, c, db, env, n - 1, now);
      var p := Loop(k, c, db, env, n - 1);
      if p.exit.None? {
        LoopOutcomeStep(k, db, p, env, n - 1, now);
      }
    }
  }

  lemma NothingClaimed(k: Setup, c: Counters, db: Db, env: nat -> Env)
    ensures LoopOutcome(k, db, Loop(k, c, db, env, 0), env)
  {
  }

  lemma LoopOutcomeStep(k: Setup, db: Db, p: LoopState, env: nat -> Env, n: nat, now: int)
    requires Inv(k.cfg, p.db) && LoopOutcome(k, db, p, env) && Drains(db, p, n, Seconds(now)) && p.exit.None?
    requires Calm(env(n), now)
    ensures LoopOutcome(k, db, After(p, TurnOf(k, p.counters, p.db, env(n))), env)
  {
    hide TurnOf, Inv;
    var t := TurnOf(k, p.counters, p.db, env(n));
    TurnSettles(k, p.counters, p.db, env(n));
    if t.claimed.Some? {
      assert t.claimed.value.id in ReadyIds(p.db, Seconds(now));
      OutcomeStep(k, db, p, t, env);
    } else {
      hide SettlesOnce;
      SameDone(db, p, t);
    }
  }

  lemma SameDone(db: Db, p: LoopState, t: Turn)
    requires t.claimed.None? && t.db == p.db
    ensures forall scan :: DoneByLoop(db, After(p, t), scan) == DoneByLoop(db, p, scan)
  {
  }

  // ----- draining without faults -----

  /** The circuit is closed at this time. */
  predicate Closed(c: Counters, now: int) {
    c.circuitOpenUntil.Some? ==> c.circuitOpenUntil.value <= now
  }

  ghost predicate AllDone(s: LoopState) {
    forall id :: id in Elements(s.claims) ==> InStatus(s.db, id, Done)
  }

  lemma {:induction false} FaultlessLoop(k: Setup, c: Counters, db: Db, env: nat -> Env, n: nat, now: int)
    requires Inv(k.cfg, db) && (forall i: nat :: Calm(env(i), now) && Faultless(env(i))) && Closed(c, now)
    ensures var s := Loop(k, c, db, env, n);
      && AllDone(s)
      && (if s.exit.None? then Closed(s.counters, now) else s.counters.circuitOpenUntil.None?)
  {
    hide TurnOf, Inv, SettlesOnce, Drains;
    if n != 0 {
      FaultlessLoop(k, c, db, env, n - 1, now);
      DrainsInOrder(k, c, db, env, n - 1, now);
      var p := Loop(k, c, db, env, n - 1);
      if p.exit.None? {
        FaultlessTurn(k, p.counters, p.db, env(n - 1), now);
        var t := TurnOf(k, p.counters, p.db, env(n - 1));
        TurnSettles(k, p.counters, p.db, env(n - 1));
        StillDone(k, p, t, env(n - 1));
      }
    }
  }

  lemma StillDone(k: Setup, p: LoopState, t: Turn, e: Env)
    requires AllDone(p) && SettlesOnce(k, p.db, e, t)
    requires t.claimed.Some? ==> InStatus(t.db, t.claimed.value.id, Done)
    ensures AllDone(After(p, t))
  {
    var s := After(p, t);
    if t.claimed.Some? {
      assert Elements(s.claims) == Elements(p.claims) + {t.claimed.value.id};
      assert SameOtherRows(p.db, t.db, t.claimed.value.id);
    }
  }

  /** Without faults and with the circuit closed, a loop of more turns than there are ready rows
      leaves every ready row, and every scan result linked to one, done. */
  lemma FaultlessDrainCompletes(k: Setup, c: Counters, db: Db, env: nat -> Env, n: nat, now: int)
    requires Inv(k.cfg, db) && (forall i: nat :: Calm(env(i), now) && Faultless(env(i))) && Closed(c, now)
    requires |ReadyIds(db, Seconds(now))| < n
    ensures var s := Loop(k, c, db, env, n);
      && s.exit == Some(Empty) && Elements(s.claims) == ReadyIds(db, Seconds(now))
      && LoopOutcome(k, db, s, env)
      && (forall id :: id in ReadyIds(db, Seconds(now)) ==> InStatus(s.db, id, Done))
      && (forall id, scan :: id in ReadyIds(db, Seconds(now)) && (id, scan) in db.links && scan in db.scans ==>
            s.db.scans[scan].status == Done)
  {
    hide TurnOf, Inv, TurnLeft;
    DrainsInOrder(k, c, db, env, n, now);
    DrainSettles(k, c, db, env, n, now);
    FaultlessLoop(k, c, db, env, n, now);
    var s := Loop(k, c, db, env, n);
    forall id, scan | id in ReadyIds(db, Seconds(now)) && (id, scan) in db.links && scan in db.scans
      ensures s.db.scans[scan].status == Done
    {
      assert DoneByLoop(db, s, scan);
    }
  }
}

/** The circuit breaker: what trips it, and what it forbids while it is open. */
module Circuit {
  import opened Schema
  import opened Transactions
  import opened Turns

  /** Exactly a refused fetch trips the circuit. It opens until the trip time plus the configured
      duration, even if the release fails, and touches neither the failure counter nor any row's
      attempts or next attempt. */
  ghost predicate TripsOnRefusal(k: Setup, c: Counters, db: Db, e: Env, t: Turn) {
    && (t.tripped <==> t.fetched && (e.fetch.RateLimited? || e.fetch.Unauthorized?))
    && (if t.tripped then
          && t.counters == Counters(c.consecutiveFailures, Some(e.tripNow + k.circuitOpenDuration))
          && t.db.queue.Keys == db.queue.Keys && t.db.cache == db.cache
          && forall id :: id in db.queue ==>
               && t.db.queue[id].attempts == db.queue[id].attempts
               && t.db.queue[id].nextAttemptAt == db.queue[id].nextAttemptAt
        else
          t.counters.circuitOpenUntil.Some? ==> Gated(c, e) || e.canceled)
  }

  lemma WorkTripsOnRefusal(k: Setup, c: Counters, db: Db, item: WorkItem, e: Env)
    requires Inv(k.cfg, db) && c.circuitOpenUntil.None? && InStatus(db, item.id, Processing)
    ensures TripsOnRefusal(k, c, db, e, WorkTurn(k, c, db, item, e))
  {
    hide Inv, Resolve, Asks, MustVerify, FailTurn, WriteTurn;
    var track := item.inputs.track;
    var fetched := Asks(k, db, track, e);
    ResolveMeans(k, db, track, e);
    FailCounts(k, c, db, item, "song", e, fetched, []);
    FailCounts(k, c, db, item, "verify", e, fetched, []);
    FailCounts(k, c, db, item, "store", e, fetched, []);
    WriteCounts(k, c, db, item, e, fetched);
    match Resolve(k, db, track, e)
    case Fresh(song) =>
      WriteCounts(k, c, StoreTx(k.cfg, db, track.artist, track.title, track.album, k.encode(song), e.storeNow), item, e, fetched);
    case _ =>
  }

  lemma TripOpensCircuit(k: Setup, c: Counters, db: Db, e: Env)
    requires Inv(k.cfg, db)
    ensures TripsOnRefusal(k, c, db, e, TurnOf(k, c, db, e))
  {
    hide WorkTurn, Inv, Ready;
    var next := NextReady(db, Seconds(e.claimNow));
    if next.Some? {
      ClaimIsSettledStep(k, c, db, e, next.value);
      var claimed := DequeueTx(db, e.claimNow);
      WorkTripsOnRefusal(k, c.(circuitOpenUntil := None), claimed, ToItem(next.value, claimed.queue[next.value]), e);
    }
  }

  /** While the circuit is open, a turn does nothing at all. */
  lemma GatedTurnIsIdle(k: Setup, c: Counters, db: Db, e: Env)
    requires Gated(c, e)
    ensures TurnOf(k, c, db, e) == Idle(db, c, if e.canceled then Canceled else Empty)
  {
  }

  /** One call of the worker: the tables as it finds them, and what it is answered. */
  datatype Call = Call(db: Db, e: Env)

  /** The worker's counters before its n-th call. Between calls the tables may change arbitrarily. */
  ghost function CountersAt(k: Setup, c: Counters, calls: seq<Call>, n: nat): Counters
    requires n <= |calls|
  {
    if n == 0 then c else TurnOf(k, CountersAt(k, c, calls, n - 1), calls[n - 1].db, calls[n - 1].e).counters
  }

  ghost function TurnAt(k: Setup, c: Counters, calls: seq<Call>, n: nat): Turn
    requires n < |calls|
  {
    TurnOf(k, CountersAt(k, c, calls, n), calls[n].db, calls[n].e)
  }

  predicate GateClockOrdered(calls: seq<Call>) {
    forall i, j :: 0 <= i < j < |calls| ==> calls[i].e.gateNow <= calls[j].e.gateNow
  }

  /** Once open until some time, the counters stay as they are for every gate before that time. */
  lemma {:induction false} StaysOpen(k: Setup, c: Counters, calls: seq<Call>, i: nat, j: nat, until: int)
    requires i < j < |calls| && GateClockOrdered(calls)
    requires CountersAt(k, c, calls, i + 1).circuitOpenUntil == Some(until) && calls[j].e.gateNow < until
    ensures CountersAt(k, c, calls, j) == CountersAt(k, c, calls, i + 1)
    decreases j
  {
    hide TurnOf;
    if i + 1 < j {
      StaysOpen(k, c, calls, i, j - 1, until);
      GatedTurnIsIdle(k, CountersAt(k, c, calls, j - 1), calls[j - 1].db, calls[j - 1].e);
    }
  }

  /** After a rate-limit or unauthorized answer at time t, no call of the worker whose gate reads a
      clock before t plus the open duration claims a row, asks the fetcher, or changes anything. */
  lemma OpenCircuitIsQuiet(k: Setup, c: Counters, calls: seq<Call>, i: nat, j: nat)
    requires i < j < |calls| && GateClockOrdered(calls)
    requires Inv(k.cfg, calls[i].db) && TurnAt(k, c, calls, i).tripped
    requires calls[j].e.gateNow < calls[i].e.tripNow + k.circuitOpenDuration
    ensures TurnAt(k, c, calls, j)
         == Idle(calls[j].db, TurnAt(k, c, calls, i).counters, if calls[j].e.canceled then Canceled else Empty)
  {
    hide TurnOf;
    TripOpensCircuit(k, CountersAt(k, c, calls, i), calls[i].db, calls[i].e);
    StaysOpen(k, c, calls, i, j, calls[i].e.tripNow + k.circuitOpenDuration);
    GatedTurnIsIdle(k, CountersAt(k, c, calls, j), calls[j].db, calls[j].e);
  }
}

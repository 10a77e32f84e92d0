/** From a pending scan result to a done one: an enqueuer pass followed by a drain of the queue. */
module Pipeline {
  import Tables
  import opened Schema
  import opened Transactions
  import opened Ordering
  import opened Enqueueing
  import opened Turns
  import opened Draining

  /** The result is linked to a row with its keys that was not ready: somebody else holds it, or it
      is waiting out a backoff. */
  ghost predicate LinkedToBusyRow(cfg: Config, db: Db, res: Tables.Listed, now: int) {
    exists r ::
      && (r, res.id) in db.links && LiveRow(db, r, cfg.norm(res.scan.artist), cfg.norm(res.scan.title))
      && (db.queue[r].status == Processing || Seconds(now) < db.queue[r].nextAttemptAt)
  }

  /** After a finished pass and a drain without faults, every formerly pending scan result of the
      library is done, unless its row was not ready for the drain. */
  lemma PendingBecomesDone(k: Setup, c: Counters, before: Db, db: Db, results: seq<Tables.Listed>, env: nat -> Env, n: nat, now: int)
    requires Inv(k.cfg, db) && PassLeaves(k.cfg, before, db, results, Finished)
    requires (forall i: nat :: Calm(env(i), now) && Faultless(env(i))) && Closed(c, now)
    requires |ReadyIds(db, Seconds(now))| < n
    ensures var s := Loop(k, c, db, env, n);
      forall i :: 0 <= i < |results| ==>
        InScanStatus(s.db, results[i].id, Done) || LinkedToBusyRow(k.cfg, db, results[i], now)
  {
    hide TurnOf, Inv;
    FaultlessDrainCompletes(k, c, db, env, n, now);
    var s := Loop(k, c, db, env, n);
    forall i | 0 <= i < |results|
      ensures InScanStatus(s.db, results[i].id, Done) || LinkedToBusyRow(k.cfg, db, results[i], now)
    {
      var res := results[i];
      assert Settled(k.cfg, before, db, res);
      if !KeyCached(k.cfg, db, res) {
        var (artistKey, titleKey) := (k.cfg.norm(res.scan.artist), k.cfg.norm(res.scan.title));
        var r :| (r, res.id) in db.links && LiveRow(db, r, artistKey, titleKey);
        assert Ready(db, Seconds(now), r) ==> r in ReadyIds(db, Seconds(now));
      }
    }
  }
}

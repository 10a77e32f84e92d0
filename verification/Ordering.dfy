/** The claim order of the queue. */
module Ordering {
  import opened Schema
  import opened Transactions

  ghost predicate Before(db: Db, id: int, other: int) {
    id in db.queue && other in db.queue && Precedes(db.queue[id], id, db.queue[other], other)
  }

  /** The claim order is a strict total order on the rows. */
  lemma BeforeIsStrictOrder(db: Db, a: int, b: int, c: int)
    ensures !Before(db, a, a)
    ensures Before(db, a, b) && Before(db, b, c) ==> Before(db, a, c)
    ensures a in db.queue && b in db.queue && a != b ==> Before(db, a, b) != Before(db, b, a)
  {
  }

  lemma {:induction false} FirstAmong(db: Db, ids: set<int>, member: int) returns (first: int)
    requires member in ids && ids <= db.queue.Keys
    ensures first in ids && forall id :: id in ids && id != first ==> Before(db, first, id)
    decreases |ids|
  {
    first := member;
    var rest := ids - {member};
    if next: int :| next in rest {
      var best := FirstAmong(db, rest, next);
      if !Before(db, first, best) {
        first := best;
      }
    }
    forall id | id in ids && id != first
      ensures Before(db, first, id)
    {
      assert id in rest || id !in rest;
    }
  }

  ghost function ReadyIds(db: Db, at: int): set<int> {
    set id | id in db.queue && Ready(db, at, id)
  }

  /** A dequeue finds a row exactly when one is ready, and then there is only one it can find. */
  lemma NextIsUnique(db: Db, at: int)
    ensures NextReady(db, at).None? <==> ReadyIds(db, at) == {}
    ensures forall id :: IsNext(db, at, id) <==> NextReady(db, at) == Some(id)
  {
    if some: int :| some in ReadyIds(db, at) {
      var first := FirstAmong(db, ReadyIds(db, at), some);
      forall other | other in db.queue && Ready(db, at, other) && other != first
        ensures Precedes(db.queue[first], first, db.queue[other], other)
      {
        assert other in ReadyIds(db, at);
        assert Before(db, first, other);
      }
      assert IsNext(db, at, first);
    }
    if id: int :| IsNext(db, at, id) {
      assert id in ReadyIds(db, at);
    }
    forall a, b | IsNext(db, at, a) && IsNext(db, at, b)
      ensures a == b
    {
    }
  }

  /** A pending or failed row whose time has come. */
  predicate Due(row: Row, at: int) {
    (row.status == Pending || row.status == Failed) && row.nextAttemptAt <= at
  }

  /** By the columns alone: of all due rows this one has the greatest priority, of those it is the
      oldest, and of those it has the least id. */
  ghost predicate FirstDue(db: Db, at: int, id: int) {
    && id in db.queue && Due(db.queue[id], at)
    && forall other :: other in db.queue && Due(db.queue[other], at) ==>
         var (first, row) := (db.queue[id], db.queue[other]);
         && row.priority <= first.priority
         && (row.priority == first.priority ==> first.createdAt <= row.createdAt)
         && (row.priority == first.priority && row.createdAt == first.createdAt ==> id <= other)
  }

  /** A dequeue claims exactly that row. */
  lemma NextIsFirstDue(db: Db, at: int, id: int)
    ensures NextReady(db, at) == Some(id) <==> FirstDue(db, at, id)
    ensures NextReady(db, at).None? <==> forall other :: other in db.queue ==> !Due(db.queue[other], at)
  {
    NextIsUnique(db, at);
    forall other | other in db.queue
      ensures Ready(db, at, other) <==> Due(db.queue[other], at)
      ensures other in ReadyIds(db, at) <==> Due(db.queue[other], at)
    {
    }
    if FirstDue(db, at, id) {
      assert IsNext(db, at, id);
    }
    if NextReady(db, at) == Some(id) {
      assert IsNext(db, at, id);
      assert FirstDue(db, at, id);
    }
  }
}

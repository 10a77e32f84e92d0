/** A live row's payload as the outcome of its history, and what that means for files that collapse
    into one row. */
module History {
  import opened Schema
  import opened Transactions
  import opened Invariant
  import opened Ordering
  import opened Runs

  function Destinations(inputs: Inputs): seq<OutputPath> {
    PathsOrDefault(inputs.outputPaths, inputs.outdir, inputs.filename)
  }

  // ----- one transaction -----

  /** An accepted enqueue that inserts row r, or finds it retryable and so replaces its payload. */
  ghost predicate OpReplaces(cfg: Config, db: Db, op: Op, r: int) {
    OpLandsOn(cfg, db, op, r) && (r in db.queue ==> Retryable(db.queue[r]))
  }

  /** The destinations that a cancel leaves row r, if the transaction cancels a library of r's. */
  ghost function CutTo(db: Db, op: Op, r: int): Option<set<OutputPath>> {
    if (op.Cancel? || op.ScanClear?) && Candidate(db, op.lib, r) then Some(KeepSet(db, r, op.lib)) else None
  }

  function Cut(paths: seq<OutputPath>, keep: Option<set<OutputPath>>): seq<OutputPath> {
    if keep.Some? then Filter(paths, keep.value) else paths
  }

  predicate HasPayload(row: Row, inputs: Inputs, paths: seq<OutputPath>) {
    && row.artist == inputs.track.artist && row.title == inputs.track.title
    && row.outdir == inputs.outdir && row.filename == inputs.filename
    && row.sourcePath == inputs.sourcePath && row.outputPaths == paths
  }

  lemma CutIsCancelledRow(db: Db, op: Op, r: int)
    requires op.Cancel? || op.ScanClear?
    ensures CancelledRow(db, op.lib, r).Some? ==>
      r in db.queue && CancelledRow(db, op.lib, r).value == db.queue[r].(outputPaths := Cut(db.queue[r].outputPaths, CutTo(db, op, r)))
  {
  }

  lemma PayloadChange(cfg: Config, db: Db, op: Op, r: int)
    requires Changed(cfg, db, op, r).Some?
    ensures var row := Changed(cfg, db, op, r).value;
      if OpReplaces(cfg, db, op, r) then
        HasPayload(row, op.inputs, Destinations(op.inputs))
      else
        && r in db.queue
        && forall inputs, paths :: HasPayload(db.queue[r], inputs, paths) ==> HasPayload(row, inputs, Cut(paths, CutTo(db, op, r)))
  {
    if op.Cancel? || op.ScanClear? {
      hide CancelledRow, CutTo;
      CutIsCancelledRow(db, op, r);
    }
  }

  // ----- whole runs -----

  /** The i-th transaction inserts row r or replaces its payload, and none of the later ones before
      the n-th does. */
  ghost predicate LastReplaces(cfg: Config, ops: seq<Op>, i: nat, r: int, n: nat)
    requires n <= |ops|
  {
    && i < n && ops[i].Enqueue? && OpReplaces(cfg, At(cfg, EMPTY, ops, i), ops[i], r)
    && forall j: nat :: i < j < n ==> !OpReplaces(cfg, At(cfg, EMPTY, ops, j), ops[j], r)
  }

  /** What the cancels after the i-th and before the n-th transaction leave of r's destinations. */
  ghost function Remaining(cfg: Config, ops: seq<Op>, r: int, i: nat, n: nat, paths: seq<OutputPath>): seq<OutputPath>
    requires n <= |ops|
  {
    if n <= i + 1 then paths
    else Cut(Remaining(cfg, ops, r, i, n - 1, paths), CutTo(At(cfg, EMPTY, ops, n - 1), ops[n - 1], r))
  }

  /** One of those cancels dropped p from row r. */
  ghost predicate CancelledSince(cfg: Config, ops: seq<Op>, r: int, i: nat, n: nat, p: OutputPath)
    requires n <= |ops|
  {
    exists j: nat :: i < j < n && Drops(cfg, ops, r, j, p)
  }

  ghost predicate Drops(cfg: Config, ops: seq<Op>, r: int, j: nat, p: OutputPath)
    requires j < |ops|
  {
    var keep := CutTo(At(cfg, EMPTY, ops, j), ops[j], r);
    keep.Some? && p !in keep.value
  }

  lemma {:induction false} RemainingMembers(cfg: Config, ops: seq<Op>, r: int, i: nat, n: nat, paths: seq<OutputPath>, p: OutputPath)
    requires n <= |ops|
    ensures p in Remaining(cfg, ops, r, i, n, paths) <==> p in paths && !CancelledSince(cfg, ops, r, i, n, p)
  {
    if i + 1 < n {
      RemainingMembers(cfg, ops, r, i, n - 1, paths, p);
      hide CutTo;
      assert Drops(cfg, ops, r, n - 1, p) || !Drops(cfg, ops, r, n - 1, p);
      assert CancelledSince(cfg, ops, r, i, n, p) <==> CancelledSince(cfg, ops, r, i, n - 1, p) || Drops(cfg, ops, r, n - 1, p);
    }
  }

  lemma ReplacingIsEnqueue(cfg: Config, db: Db, op: Op, r: int)
    requires OpReplaces(cfg, db, op, r)
    ensures op.Enqueue?
  {
  }

  /** In every run from an empty database, a live row has the payload of the last enqueue that
      inserted it or met it retryable; of that enqueue's destinations it has, in order, those that
      no later cancel dropped. Enqueues that met the row claimed or done left nothing in it. */
  lemma {:induction false} PayloadIsLast(cfg: Config, ops: seq<Op>, r: int, n: nat) returns (i: nat)
    requires n <= |ops| && r in At(cfg, EMPTY, ops, n).queue
    ensures LastReplaces(cfg, ops, i, r, n)
    ensures HasPayload(At(cfg, EMPTY, ops, n).queue[r], ops[i].inputs,
                       Remaining(cfg, ops, r, i, n, Destinations(ops[i].inputs)))
  {
    hide Step, Changed, Inv, OpReplaces, HasPayload, CutTo;
    EmptyIsConsistent(cfg);
    AtEnds(cfg, EMPTY, ops);
    assert n != 0;
    var before, op := At(cfg, EMPTY, ops, n - 1), ops[n - 1];
    AtNext(cfg, EMPTY, ops, n - 1);
    AtInv(cfg, EMPTY, ops, n - 1);
    RowStep(cfg, before, op, r);
    PayloadChange(cfg, before, op, r);
    if OpReplaces(cfg, before, op, r) {
      i := n - 1;
      ReplacingIsEnqueue(cfg, before, op, r);
    } else {
      i := PayloadIsLast(cfg, ops, r, n - 1);
      var paths := Remaining(cfg, ops, r, i, n - 1, Destinations(ops[i].inputs));
      assert HasPayload(before.queue[r], ops[i].inputs, paths);
      assert Remaining(cfg, ops, r, i, n, Destinations(ops[i].inputs)) == Cut(paths, CutTo(before, op, r));
    }
  }

  /** A run in two parts. */
  lemma {:induction false} ExecAppend(cfg: Config, db: Db, a: seq<Op>, b: seq<Op>)
    ensures Exec(cfg, db, a + b) == Exec(cfg, Exec(cfg, db, a), b)
  {
    hide Step;
    if b == [] {
      assert a + b == a;
    } else {
      var n := |b| - 1;
      ExecAppend(cfg, db, a, b[..n]);
      assert (a + b)[..|a + b| - 1] == a + b[..n];
    }
  }

  /** The c-th transaction claims row r, and the claim is still held at the end of the run. */
  ghost predicate ClaimedAt(cfg: Config, ops: seq<Op>, c: nat, r: int) {
    && c < |ops| && ops[c].Dequeue?
    && NextReady(At(cfg, EMPTY, ops, c), Seconds(ops[c].now)) == Some(r)
    && forall j :: c < j < |ops| ==> !Settles(ops[j], r)
  }

  lemma HeldClaim(cfg: Config, ops: seq<Op>, c: nat, r: int)
    requires ClaimedAt(cfg, ops, c, r)
    ensures var (before, claimed, db) := (At(cfg, EMPTY, ops, c), At(cfg, EMPTY, ops, c + 1), Exec(cfg, EMPTY, ops));
      && r in before.queue && InStatus(claimed, r, Processing) && InStatus(db, r, Processing)
      && claimed.queue[r].outputPaths == before.queue[r].outputPaths
  {
    hide Inv, EnqueueTx, CancelTx, UpsertTx, ScanClearTx;
    EmptyIsConsistent(cfg);
    AtInv(cfg, EMPTY, ops, c);
    AtInv(cfg, EMPTY, ops, c + 1);
    AtNext(cfg, EMPTY, ops, c);
    NextIsUnique(At(cfg, EMPTY, ops, c), Seconds(ops[c].now));
    var claimed := At(cfg, EMPTY, ops, c + 1);
    ClaimIsExclusive(cfg, claimed, ops[c + 1..], r, |ops| - c - 1);
    AtEnds(cfg, claimed, ops[c + 1..]);
    ExecAppend(cfg, EMPTY, ops[..c + 1], ops[c + 1..]);
    assert ops[..c + 1] + ops[c + 1..] == ops;
  }

  /** Let a run claim row r, and let scan result s have been enqueued onto r at any time, before the
      claim or during it, with destination p. Completing the claim marks s done; but p is among the
      destinations that the worker was handed exactly if it is a destination of the last enqueue
      before the claim that inserted r or met it retryable, and no cancel has dropped it since. */
  lemma CollapsedFileKeepsItsPathsIff(cfg: Config, ops: seq<Op>, c: nat, r: int, j: nat, s: int, p: OutputPath, now: int)
    returns (i: nat)
    requires ClaimedAt(cfg, ops, c, r)
    requires Records(cfg, EMPTY, ops, j, r, s) && s in Exec(cfg, EMPTY, ops).scans && p in Destinations(ops[j].inputs)
    ensures var db' := CompleteTx(Exec(cfg, EMPTY, ops), r, now);
      InStatus(db', r, Done) && s in db'.scans && db'.scans[s].status == Done
    ensures LastReplaces(cfg, ops, i, r, c)
    ensures var claimed := At(cfg, EMPTY, ops, c + 1);
      && r in claimed.queue
      && (p in ToItem(r, claimed.queue[r]).inputs.outputPaths
          <==> p in Destinations(ops[i].inputs) && !CancelledSince(cfg, ops, r, i, c, p))
  {
    hide Step, CompleteTx, Records, OpReplaces, CutTo;
    HeldClaim(cfg, ops, c, r);
    NoScanResultIsLost(cfg, ops, r, now);
    i := PayloadIsLast(cfg, ops, r, c);
    RemainingMembers(cfg, ops, r, i, c, Destinations(ops[i].inputs), p);
    AtInv(cfg, EMPTY, ops, c + 1);
  }

  // ----- two concrete losses -----

  const TRACK: Track := Track("artist", "title", "")
  const FILE_X: ScanInput := ScanInput("x/f.mp3", "artist", "title", "x", "f.lrc", Blank)
  const FILE_Y: ScanInput := ScanInput("y/f.mp3", "artist", "title", "y", "f.lrc", Blank)
  const PATH_X: OutputPath := OutputPath("x", "f.lrc")
  const PATH_Y: OutputPath := OutputPath("y", "f.lrc")
  const REQUEST_X: Inputs := Inputs(TRACK, "x", "f.lrc", "x/f.mp3", [PATH_X], 1)
  const REQUEST_Y: Inputs := Inputs(TRACK, "y", "f.lrc", "y/f.mp3", [PATH_Y], 2)

  function Recorded(res: ScanInput): ScanRow {
    ScanRow(1, res.filePath, res.artist, res.title, res.outdir, res.filename, Pending)
  }

  /** Library 1 with the same track in two directories, after its scan. */
  ghost function Scanned(): Db {
    UpsertTx(EMPTY, 1, [FILE_X, FILE_Y], false)
  }

  lemma ScannedIs(cfg: Config)
    ensures Scanned() == EMPTY.(scans := map[1 := Recorded(FILE_X), 2 := Recorded(FILE_Y)], nextScan := 3)
    ensures Inv(cfg, Scanned())
  {
    var (one, two) := (UpsertOne(EMPTY, 1, FILE_X, false), UpsertAll(EMPTY, 1, [FILE_X, FILE_Y], false));
    assert [FILE_X, FILE_Y][..1] == [FILE_X] && [FILE_X][..0] == [];
    assert UpsertAll(EMPTY, 1, [FILE_X], false) == one;
    assert one.scans == map[1 := Recorded(FILE_X)];
    assert FILE_X.filePath[0] != FILE_Y.filePath[0];
    assert forall s :: !HasFile(one, s, 1, FILE_Y.filePath);
    assert two.scans == map[1 := Recorded(FILE_X), 2 := Recorded(FILE_Y)];
    assert forall res :: res in [FILE_X, FILE_Y] ==> !res.status.Unknown?;
    EmptyIsConsistent(cfg);
    UpsertAllKeepsInv(cfg, EMPTY, 1, [FILE_X, FILE_Y], false);
  }

  /** One row for both files. */
  ghost predicate OneRow(cfg: Config, db: Db, status: Status, paths: seq<OutputPath>, links: set<(int, int)>) {
    && Inv(cfg, db) && db.queue.Keys == {1} && db.queue[1].status == status && db.queue[1].outputPaths == paths
    && HasKey(db, 1, cfg.norm("artist"), cfg.norm("title"))
    && db.links == links && db.scans == Scanned().scans
  }

  lemma EnqueueFirst(cfg: Config, now: int)
    ensures var db := EnqueueTx(cfg, Scanned(), REQUEST_X, 0, now);
      OneRow(cfg, db, Pending, [PATH_X], {(1, 1)}) && db.queue[1].nextAttemptAt == Seconds(now)
  {
    ScannedIs(cfg);
    EnqueueKeepsInv(cfg, Scanned(), REQUEST_X, 0, now);
    assert forall id :: !HasKey(Scanned(), id, cfg.norm("artist"), cfg.norm("title"));
    assert EnqueueTarget(cfg, Scanned(), REQUEST_X) == None;
    assert EnqueueTx(cfg, Scanned(), REQUEST_X, 0, now).queue == map[1 := Inserted(cfg, REQUEST_X, 0, now)];
  }

  lemma EnqueueSecond(cfg: Config, db: Db, status: Status, now: int)
    requires OneRow(cfg, db, status, [PATH_X], {(1, 1)}) && (status == Pending || status == Processing)
    ensures var db' := EnqueueTx(cfg, db, REQUEST_Y, 0, now);
      && OneRow(cfg, db', status, if status == Pending then [PATH_Y] else [PATH_X], {(1, 1), (1, 2)})
      && db'.queue[1].nextAttemptAt == if status == Pending then Seconds(now) else db.queue[1].nextAttemptAt
  {
    ScannedIs(cfg);
    EnqueueKeepsInv(cfg, db, REQUEST_Y, 0, now);
    LookupExact(cfg, db, cfg.norm("artist"), cfg.norm("title"));
    var db' := EnqueueTx(cfg, db, REQUEST_Y, 0, now);
    assert db'.queue == db.queue[1 := Refreshed(db.queue[1], Inserted(cfg, REQUEST_Y, 0, now))];
    assert db'.links == {(1, 1), (1, 2)};
  }

  lemma ClaimTheRow(cfg: Config, db: Db, paths: seq<OutputPath>, links: set<(int, int)>, now: int)
    requires OneRow(cfg, db, Pending, paths, links) && db.queue[1].nextAttemptAt == Seconds(now)
    ensures OneRow(cfg, DequeueTx(db, now), Processing, paths, links)
  {
    assert IsNext(db, Seconds(now), 1);
    NextIsUnique(db, Seconds(now));
    DequeueKeepsInv(cfg, db, now);
  }

  lemma CompleteTheRow(cfg: Config, db: Db, paths: seq<OutputPath>, now: int)
    requires OneRow(cfg, db, Processing, paths, {(1, 1), (1, 2)})
    ensures BothDone(CompleteTx(db, 1, now), paths)
  {
    ScannedIs(cfg);
    assert 1 in Linked(db, 1) by { assert (1, 1) in db.links; }
    assert 2 in Linked(db, 1) by { assert (1, 2) in db.links; }
  }

  /** The row and both scan results are done, and these are the destinations that were written. */
  ghost predicate BothDone(db: Db, paths: seq<OutputPath>) {
    && InStatus(db, 1, Done) && db.queue[1].outputPaths == paths && db.links == {(1, 1), (1, 2)}
    && 1 in db.scans && db.scans[1] == Recorded(FILE_X).(status := Done) && PathOf(db.scans[1]) == PATH_X
    && 2 in db.scans && db.scans[2] == Recorded(FILE_Y).(status := Done) && PathOf(db.scans[2]) == PATH_Y
  }

  /** Both losses, whatever the normalizer. Scan, enqueue, enqueue, claim, complete: the second
      enqueue replaces the first file's destination. Scan, enqueue, claim, enqueue, complete: the
      second file's destination is never taken. Either way both scan results end up done, and one of
      their destinations is not among those the worker was handed. */
  lemma CollapsedFileCanLoseItsPath(cfg: Config, now: int)
    ensures var scan := Upsert(1, [FILE_X, FILE_Y], false);
      var (x, y) := (Enqueue(REQUEST_X, 0, now), Enqueue(REQUEST_Y, 0, now));
      && PATH_X != PATH_Y
      && BothDone(Exec(cfg, EMPTY, [scan, x, y, Dequeue(now), Complete(1, now)]), [PATH_Y])
      && BothDone(Exec(cfg, EMPTY, [scan, x, Dequeue(now), y, Complete(1, now)]), [PATH_X])
  {
    hide Exec, BothDone;
    assert PATH_X.outdir[0] != PATH_Y.outdir[0];
    SecondReplacesFirst(cfg, now);
    SecondComesTooLate(cfg, now);
  }

  lemma SecondReplacesFirst(cfg: Config, now: int)
    ensures var scan := Upsert(1, [FILE_X, FILE_Y], false);
      var (x, y) := (Enqueue(REQUEST_X, 0, now), Enqueue(REQUEST_Y, 0, now));
      BothDone(Exec(cfg, EMPTY, [scan, x, y, Dequeue(now), Complete(1, now)]), [PATH_Y])
  {
    hide UpsertTx, EnqueueTx, DequeueTx, CompleteTx, OneRow, BothDone;
    var one := EnqueueTx(cfg, Scanned(), REQUEST_X, 0, now);
    var two := EnqueueTx(cfg, one, REQUEST_Y, 0, now);
    EnqueueFirst(cfg, now);
    EnqueueSecond(cfg, one, Pending, now);
    ClaimTheRow(cfg, two, [PATH_Y], {(1, 1), (1, 2)}, now);
    CompleteTheRow(cfg, DequeueTx(two, now), [PATH_Y], now);
    ExecFive(cfg, Upsert(1, [FILE_X, FILE_Y], false), Enqueue(REQUEST_X, 0, now), Enqueue(REQUEST_Y, 0, now),
             Dequeue(now), Complete(1, now));
  }

  lemma SecondComesTooLate(cfg: Config, now: int)
    ensures var scan := Upsert(1, [FILE_X, FILE_Y], false);
      var (x, y) := (Enqueue(REQUEST_X, 0, now), Enqueue(REQUEST_Y, 0, now));
      BothDone(Exec(cfg, EMPTY, [scan, x, Dequeue(now), y, Complete(1, now)]), [PATH_X])
  {
    hide UpsertTx, EnqueueTx, DequeueTx, CompleteTx, OneRow, BothDone;
    var one := EnqueueTx(cfg, Scanned(), REQUEST_X, 0, now);
    var claimed := DequeueTx(one, now);
    EnqueueFirst(cfg, now);
    ClaimTheRow(cfg, one, [PATH_X], {(1, 1)}, now);
    EnqueueSecond(cfg, claimed, Processing, now);
    CompleteTheRow(cfg, EnqueueTx(cfg, claimed, REQUEST_Y, 0, now), [PATH_X], now);
    ExecFive(cfg, Upsert(1, [FILE_X, FILE_Y], false), Enqueue(REQUEST_X, 0, now), Dequeue(now),
             Enqueue(REQUEST_Y, 0, now), Complete(1, now));
  }

  lemma ExecFive(cfg: Config, a: Op, b: Op, c: Op, d: Op, e: Op)
    ensures Exec(cfg, EMPTY, [a, b, c, d, e])
         == Step(cfg, Step(cfg, Step(cfg, Step(cfg, Step(cfg, EMPTY, a), b), c), d), e)
  {
    hide Step;
    var ops := [a, b, c, d, e];
    AtEnds(cfg, EMPTY, ops);
    AtNext(cfg, EMPTY, ops, 0);
    AtNext(cfg, EMPTY, ops, 1);
    AtNext(cfg, EMPTY, ops, 2);
    AtNext(cfg, EMPTY, ops, 3);
    AtNext(cfg, EMPTY, ops, 4);
  }
}

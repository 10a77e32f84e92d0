/** Cancelling and clearing libraries: what survives, why the dry run is exact, and why the order
    in which libraries are cleared does not matter. */
module Clearing {
  import opened Selection
  import opened Schema
  import opened Transactions

  // ----- filtering destination lists -----

  function KeepFlags(paths: seq<OutputPath>, keep: set<OutputPath>): (f: seq<bool>)
    ensures |f| == |paths|
  {
    seq(|paths|, k requires 0 <= k < |paths| => paths[k] in keep)
  }

  lemma KeepFlagsPrefix(paths: seq<OutputPath>, keep: set<OutputPath>, n: nat)
    requires n <= |paths|
    ensures KeepFlags(paths, keep)[..n] == KeepFlags(paths[..n], keep)
  {
  }

  lemma FilterLast(paths: seq<OutputPath>, keep: set<OutputPath>, n: nat)
    requires n + 1 == |paths|
    ensures Filter(paths, keep) == Filter(paths[..n], keep) + if paths[n] in keep then [paths[n]] else []
  {
    FilterAppend(paths[..n], [paths[n]], keep);
    assert paths == paths[..n] + [paths[n]];
  }

  /** Filtering picks, in order, exactly the entries that are kept. */
  lemma {:induction false} FilterSelects(paths: seq<OutputPath>, keep: set<OutputPath>)
    ensures Filter(paths, keep) == Selected(paths, KeepFlags(paths, keep))
    decreases |paths|
  {
    if paths != [] {
      var n := |paths| - 1;
      FilterSelects(paths[..n], keep);
      FilterLast(paths, keep, n);
      KeepFlagsPrefix(paths, keep, n);
      SelectTruncated(paths, KeepFlags(paths, keep), n, n);
    }
  }

  lemma {:induction false} SelectTruncated<T>(s: seq<T>, f: seq<bool>, m: nat, n: nat)
    requires |s| == |f| && n <= m <= |s|
    ensures Select(s, f, n) == Select(s[..m], f[..m], n)
  {
    if 0 < n {
      SelectTruncated(s, f, m, n - 1);
    }
  }

  lemma {:induction false} FilterAppend(a: seq<OutputPath>, b: seq<OutputPath>, keep: set<OutputPath>)
    ensures Filter(a + b, keep) == Filter(a, keep) + Filter(b, keep)
  {
    if a == [] {
      assert a + b == b;
    } else {
      FilterAppend(a[1..], b, keep);
      var first := if a[0] in keep then [a[0]] else [];
      assert (a + b)[0] == a[0] && (a + b)[1..] == a[1..] + b;
      assert first + (Filter(a[1..], keep) + Filter(b, keep)) == (first + Filter(a[1..], keep)) + Filter(b, keep);
    }
  }

  /** Filtering twice, with ever fewer kept entries, is filtering once. */
  lemma {:induction false} FilterTwice(paths: seq<OutputPath>, wide: set<OutputPath>, narrow: set<OutputPath>)
    requires narrow <= wide
    ensures Filter(Filter(paths, wide), narrow) == Filter(paths, narrow)
  {
    if paths != [] {
      FilterTwice(paths[1..], wide, narrow);
      FilterAppend(if paths[0] in wide then [paths[0]] else [], Filter(paths[1..], wide), narrow);
    }
  }

  function Get<V>(m: map<int, V>, k: int): Option<V> {
    if k in m then Some(m[k]) else None
  }

  lemma SameMap<V>(a: map<int, V>, b: map<int, V>)
    requires forall k :: Get(a, k) == Get(b, k)
    ensures a == b
  {
    forall k
      ensures k in a <==> k in b
      ensures k in a ==> a[k] == b[k]
    {
      assert Get(a, k) == Get(b, k);
    }
  }

  // ----- what a cancel does -----

  /** A scan result of another library, linked to the row, has this destination. */
  ghost predicate AskedFor(db: Db, id: int, lib: int, p: OutputPath) {
    exists s :: s in db.scans && (id, s) in db.links && db.scans[s].libraryId != lib
                && OutputPath(db.scans[s].outdir, db.scans[s].filename) == p
  }

  /** The row is pending or failed, and linked to a scan result of the library. */
  ghost predicate WaitsFor(db: Db, lib: int, id: int) {
    && id in db.queue && (db.queue[id].status == Pending || db.queue[id].status == Failed)
    && exists s :: s in db.scans && (id, s) in db.links && db.scans[s].libraryId == lib
  }

  lemma CandidateWaits(db: Db, lib: int, id: int)
    ensures Candidate(db, lib, id) <==> WaitsFor(db, lib, id)
  {
    if WaitsFor(db, lib, id) {
      var s :| s in db.scans && (id, s) in db.links && db.scans[s].libraryId == lib;
      assert s in ScansOf(db, lib);
    }
  }

  lemma KeptIsAskedFor(db: Db, lib: int, id: int, p: OutputPath)
    ensures p in KeepSet(db, id, lib) <==> AskedFor(db, id, lib, p)
  {
    if AskedFor(db, id, lib, p) {
      var s :| s in db.scans && (id, s) in db.links && db.scans[s].libraryId != lib
               && OutputPath(db.scans[s].outdir, db.scans[s].filename) == p;
      assert PathOf(db.scans[s]) == p;
    }
  }

  /** A cancel touches only the pending and failed rows linked to the library. Of those it deletes
      exactly the ones none of whose destinations is asked for by another library's link; each
      survivor keeps, in order, exactly its destinations that are, and every other column. The list
      is never empty, so reading it back never falls back to the row's single destination. The
      ledger and the cache stay, and so does every link of a surviving row. */
  lemma CancelOutcome(db: Db, lib: int, id: int)
    requires id in db.queue
    ensures var (db', row) := (CancelTx(db, lib), db.queue[id]);
      if WaitsFor(db, lib, id) then
        && (id !in db'.queue <==> forall p :: p in row.outputPaths ==> !AskedFor(db, id, lib, p))
        && (id in db'.queue ==>
              var paths := db'.queue[id].outputPaths;
              && db'.queue[id] == row.(outputPaths := paths)
              && ToItem(id, db'.queue[id]).inputs.outputPaths == paths == Filter(row.outputPaths, KeepSet(db, id, lib)) != []
              && forall p :: p in paths <==> p in row.outputPaths && AskedFor(db, id, lib, p))
      else
        id in db'.queue && db'.queue[id] == row
    ensures var db' := CancelTx(db, lib);
      && db' == db.(queue := db'.queue, links := db'.links) && db'.queue.Keys <= db.queue.Keys
      && forall s :: (id, s) in db'.links <==> (id, s) in db.links && id in db'.queue
  {
    CandidateWaits(db, lib, id);
    CancelledRowIs(db, lib, id);
    hide Candidate, WaitsFor, KeepSet, AskedFor;
    var kept := Kept(db, lib, id);
    if kept != [] {
      assert kept[0] in kept;
    }
    forall p
      ensures p in KeepSet(db, id, lib) <==> AskedFor(db, id, lib, p)
    {
      KeptIsAskedFor(db, lib, id, p);
    }
  }

  lemma CancelledRowIs(db: Db, lib: int, id: int)
    requires id in db.queue
    ensures var db' := CancelTx(db, lib);
      if !Candidate(db, lib, id) then id in db'.queue && db'.queue[id] == db.queue[id]
      else if Kept(db, lib, id) == [] then id !in db'.queue
      else id in db'.queue && db'.queue[id] == db.queue[id].(outputPaths := Kept(db, lib, id))
  {
  }

  function DeletedBy(db: Db, lib: int, ids: set<int>): set<int> {
    set id | id in ids && CancelDeletes(db, lib, id)
  }

  function UpdatedBy(db: Db, lib: int, ids: set<int>): set<int> {
    set id | id in ids && CancelUpdates(db, lib, id)
  }

  /** The two reported numbers count the rows that disappear and the rows that change. */
  lemma CancelCounts(db: Db, lib: int)
    ensures var db' := CancelTx(db, lib);
      && DeletedBy(db, lib, Candidates(db, lib)) == db.queue.Keys - db'.queue.Keys
      && UpdatedBy(db, lib, Candidates(db, lib)) == set id | id in db'.queue && id in db.queue && db'.queue[id] != db.queue[id]
  {
    var db' := CancelTx(db, lib);
    forall id | id in db.queue
      ensures id in DeletedBy(db, lib, Candidates(db, lib)) <==> id !in db'.queue
      ensures id in UpdatedBy(db, lib, Candidates(db, lib)) <==> id in db'.queue && db'.queue[id] != db.queue[id]
    {
      CancelledRowIs(db, lib, id);
    }
  }

  /** A `scan clear`, column by column: the library's results go, and so do the rows that waited for
      it and whose destinations nobody else asks for. Other rows that waited for it keep the
      destinations that others ask for, and a row whose own link was to the library loses it. Links
      with both ends left stay. */
  lemma ScanClearOutcome(cfg: Config, db: Db, lib: int, id: int)
    requires Inv(cfg, db) && id in db.queue
    ensures var db' := ScanClearTx(db, lib);
      && (forall s :: s in db'.scans <==> s in db.scans && db.scans[s].libraryId != lib)
      && (forall s :: s in db'.scans ==> db'.scans[s] == db.scans[s])
      && db' == db.(queue := db'.queue, scans := db'.scans, links := db'.links) && db'.queue.Keys <= db.queue.Keys
      && (forall s :: (id, s) in db'.links <==> (id, s) in db.links && id in db'.queue && s in db'.scans)
    ensures var (db', row) := (ScanClearTx(db, lib), db.queue[id]);
      && (id !in db'.queue <==> WaitsFor(db, lib, id) && forall p :: p in row.outputPaths ==> !AskedFor(db, id, lib, p))
      && (id in db'.queue ==>
            var paths := db'.queue[id].outputPaths;
            && db'.queue[id] == row.(outputPaths := paths, scanResultId :=
                 if row.scanResultId.Some? && db.scans[row.scanResultId.value].libraryId == lib then None else row.scanResultId)
            && (if WaitsFor(db, lib, id) then forall p :: p in paths <==> p in row.outputPaths && AskedFor(db, id, lib, p)
                else paths == row.outputPaths))
  {
    CancelOutcome(db, lib, id);
    hide CancelTx, AskedFor, WaitsFor, KeepSet;
  }

  /** Handling some rows never changes the keep set, the destinations or the candidacy of another. */
  lemma OtherRowsUntouched(db: Db, lib: int, ids: set<int>, id: int)
    requires id in db.queue && id !in ids
    ensures var mid := CancelRows(db, lib, ids);
      && id in mid.queue && mid.queue[id] == db.queue[id]
      && KeepSet(mid, id, lib) == KeepSet(db, id, lib)
      && Candidate(mid, lib, id) == Candidate(db, lib, id)
  {
  }

  ghost function CancelledIn(db: Db, lib: int, ids: set<int>, id: int): Option<Row> {
    if id !in db.queue || (id in ids && CancelDeletes(db, lib, id)) then None
    else if id in ids && CancelUpdates(db, lib, id) then Some(db.queue[id].(outputPaths := Kept(db, lib, id)))
    else Some(db.queue[id])
  }

  lemma CancelRowsIn(db: Db, lib: int, ids: set<int>, id: int)
    ensures Get(CancelRows(db, lib, ids).queue, id) == CancelledIn(db, lib, ids, id)
  {
  }

  lemma CancelRowsLinks(db: Db, lib: int, ids: set<int>, l: (int, int))
    ensures l in CancelRows(db, lib, ids).links <==> l in db.links && !(l.0 in ids && CancelDeletes(db, lib, l.0))
  {
  }

  lemma SameCancelVerdict(db: Db, lib: int, ids: set<int>, id: int)
    requires id in db.queue && id !in ids
    ensures var mid := CancelRows(db, lib, ids);
      && CancelDeletes(mid, lib, id) == CancelDeletes(db, lib, id)
      && CancelledIn(mid, lib, {id}, id) == CancelledIn(db, lib, ids + {id}, id)
  {
    OtherRowsUntouched(db, lib, ids, id);
  }

  lemma CancelOneMoreRow(db: Db, lib: int, ids: set<int>, id: int, k: int)
    requires id in db.queue && id !in ids
    ensures var mid := CancelRows(db, lib, ids);
      CancelledIn(mid, lib, {id}, k) == CancelledIn(db, lib, ids + {id}, k)
  {
    hide CancelDeletes, CancelUpdates, CancelRows;
    SameCancelVerdict(db, lib, ids, id);
    CancelRowsIn(db, lib, ids, k);
  }

  lemma CancelOneMoreLink(db: Db, lib: int, ids: set<int>, id: int, l: (int, int))
    requires id in db.queue && id !in ids
    ensures var mid := CancelRows(db, lib, ids);
      l in CancelRows(mid, lib, {id}).links <==> l in CancelRows(db, lib, ids + {id}).links
  {
    hide CancelDeletes, CancelUpdates, CancelRows;
    SameCancelVerdict(db, lib, ids, id);
    CancelRowsLinks(CancelRows(db, lib, ids), lib, {id}, l);
    CancelRowsLinks(db, lib, ids, l);
    CancelRowsLinks(db, lib, ids + {id}, l);
  }

  lemma CancelRowsChanges(db: Db, lib: int, ids: set<int>)
    ensures var db' := CancelRows(db, lib, ids);
      db' == db.(queue := db'.queue, links := db'.links)
  {
  }

  /** Cancelling row by row is cancelling all at once. */
  lemma CancelOneMore(db: Db, lib: int, ids: set<int>, id: int)
    requires id in db.queue && id !in ids
    ensures CancelRows(CancelRows(db, lib, ids), lib, {id}) == CancelRows(db, lib, ids + {id})
  {
    hide CancelRows, CancelledIn;
    var mid := CancelRows(db, lib, ids);
    var (a, b) := (CancelRows(mid, lib, {id}), CancelRows(db, lib, ids + {id}));
    forall k
      ensures Get(a.queue, k) == Get(b.queue, k)
    {
      CancelOneMoreRow(db, lib, ids, id, k);
      CancelRowsIn(mid, lib, {id}, k);
      CancelRowsIn(db, lib, ids + {id}, k);
    }
    SameMap(a.queue, b.queue);
    forall l
      ensures l in a.links <==> l in b.links
    {
      CancelOneMoreLink(db, lib, ids, id, l);
    }
    assert a.links == b.links;
    CancelRowsChanges(db, lib, ids);
    CancelRowsChanges(mid, lib, {id});
    CancelRowsChanges(db, lib, ids + {id});
  }

  /** A second cancel finds nothing to delete, nothing to update, and changes nothing. */
  lemma CancelIdempotent(db: Db, lib: int)
    ensures var db' := CancelTx(db, lib);
      && DeletedBy(db', lib, Candidates(db', lib)) == {}
      && UpdatedBy(db', lib, Candidates(db', lib)) == {}
      && CancelTx(db', lib) == db'
  {
    var db' := CancelTx(db, lib);
    forall id | id in db'.queue && Candidate(db', lib, id)
      ensures !CancelDeletes(db', lib, id) && !CancelUpdates(db', lib, id)
    {
      SurvivorIsSettled(db, lib, id);
    }
    forall id
      ensures Get(CancelTx(db', lib).queue, id) == Get(db'.queue, id)
    {
      CancelRowsIn(db', lib, Candidates(db', lib), id);
    }
    SameMap(CancelTx(db', lib).queue, db'.queue);
    assert CancelTx(db', lib).links == db'.links;
  }

  lemma SurvivorIsSettled(db: Db, lib: int, id: int)
    requires id in CancelTx(db, lib).queue && Candidate(CancelTx(db, lib), lib, id)
    ensures !CancelDeletes(CancelTx(db, lib), lib, id) && !CancelUpdates(CancelTx(db, lib), lib, id)
  {
    var db' := CancelTx(db, lib);
    CancelRowsIn(db, lib, Candidates(db, lib), id);
    assert forall s :: (id, s) in db'.links <==> (id, s) in db.links;
    assert KeepSet(db', id, lib) == KeepSet(db, id, lib);
    assert ScansOf(db', lib) == ScansOf(db, lib);
    assert Candidate(db, lib, id);
    FilterTwice(db.queue[id].outputPaths, KeepSet(db, id, lib), KeepSet(db, id, lib));
  }

  // ----- clearing any number of libraries -----

  function ScansIn(db: Db, libs: set<int>): set<int> {
    set s | s in db.scans && db.scans[s].libraryId in libs
  }

  predicate Touched(db: Db, libs: set<int>, id: int) {
    id in db.queue && Retryable(db.queue[id]) && exists s :: s in ScansIn(db, libs) && (id, s) in db.links
  }

  function KeepOutside(db: Db, libs: set<int>, id: int): set<OutputPath> {
    set s | s in db.scans && (id, s) in db.links && db.scans[s].libraryId !in libs :: PathOf(db.scans[s])
  }

  function Remaining(db: Db, libs: set<int>, id: int): seq<OutputPath>
    requires id in db.queue
  {
    if Touched(db, libs, id) then Filter(db.queue[id].outputPaths, KeepOutside(db, libs, id)) else db.queue[id].outputPaths
  }

  predicate Emptied(db: Db, libs: set<int>, id: int) {
    Touched(db, libs, id) && Remaining(db, libs, id) == []
  }

  /** Clearing a whole set of libraries in one go. */
  function ClearSet(db: Db, libs: set<int>): Db {
    db.(queue := map id | id in db.queue && !Emptied(db, libs, id) ::
                   Unlink(db.queue[id].(outputPaths := Remaining(db, libs, id)), ScansIn(db, libs)),
        scans := map s | s in db.scans && db.scans[s].libraryId !in libs :: db.scans[s],
        links := set l | l in db.links && !Emptied(db, libs, l.0) && l.1 !in ScansIn(db, libs))
  }

  function ClearedRow(db: Db, libs: set<int>, id: int): Option<Row> {
    if id !in db.queue || Emptied(db, libs, id) then None
    else Some(Unlink(db.queue[id].(outputPaths := Remaining(db, libs, id)), ScansIn(db, libs)))
  }

  lemma ClearSetRow(db: Db, libs: set<int>, id: int)
    ensures Get(ClearSet(db, libs).queue, id) == ClearedRow(db, libs, id)
  {
  }

  lemma ClearSetLinks(db: Db, libs: set<int>, l: (int, int))
    ensures l in ClearSet(db, libs).links <==> l in db.links && !Emptied(db, libs, l.0) && l.1 !in ScansIn(db, libs)
  {
  }

  lemma CancelThenClearRow(db: Db, lib: int, id: int)
    ensures Emptied(db, {lib}, id) == CancelDeletes(db, lib, id)
    ensures Get(ScanClearTx(db, lib).queue, id) == ClearedRow(db, {lib}, id)
  {
    assert ScansIn(db, {lib}) == ScansOf(db, lib);
    assert KeepOutside(db, {lib}, id) == KeepSet(db, id, lib);
    assert Touched(db, {lib}, id) == Candidate(db, lib, id);
    CancelRowsIn(db, lib, Candidates(db, lib), id);
    assert ScansOf(CancelTx(db, lib), lib) == ScansOf(db, lib);
  }

  /** One `scan clear` is the one-library case. */
  lemma ClearOne(db: Db, lib: int)
    ensures ScanClearTx(db, lib) == ClearSet(db, {lib})
  {
    var (a, b) := (ScanClearTx(db, lib), ClearSet(db, {lib}));
    assert ScansOf(CancelTx(db, lib), lib) == ScansOf(db, lib) == ScansIn(db, {lib});
    forall id
      ensures Get(a.queue, id) == Get(b.queue, id)
    {
      CancelThenClearRow(db, lib, id);
      ClearSetRow(db, {lib}, id);
    }
    SameMap(a.queue, b.queue);
    assert a.scans == b.scans;
    forall l
      ensures l in a.links <==> l in b.links
    {
      CancelThenClearRow(db, lib, l.0);
      ClearSetLinks(db, {lib}, l);
      CancelRowsLinks(db, lib, Candidates(db, lib), l);
    }
    assert a.links == b.links;
  }

  /** What clearing `libs` leaves of a surviving row's links is what lies outside `libs`. */
  lemma LinksAfterClear(db: Db, libs: set<int>, lib: int, id: int)
    requires id in db.queue && !Emptied(db, libs, id)
    ensures var mid := ClearSet(db, libs);
      && id in mid.queue
      && KeepOutside(mid, {lib}, id) == KeepOutside(db, libs + {lib}, id)
      && Touched(mid, {lib}, id) == (lib !in libs && Touched(db, {lib}, id))
  {
  }

  lemma TouchedUnion(db: Db, libs: set<int>, lib: int, id: int)
    requires id in db.queue
    ensures Touched(db, libs + {lib}, id) == (Touched(db, libs, id) || Touched(db, {lib}, id))
    ensures !Touched(db, {lib}, id) && Touched(db, libs, id) ==> KeepOutside(db, libs + {lib}, id) == KeepOutside(db, libs, id)
    ensures KeepOutside(db, libs + {lib}, id) <= KeepOutside(db, libs, id)
  {
  }

  lemma PathsAfterClear(db: Db, libs: set<int>, id: int)
    requires id in db.queue && !Emptied(db, libs, id)
    ensures id in ClearSet(db, libs).queue && ClearSet(db, libs).queue[id].outputPaths == Remaining(db, libs, id)
  {
  }

  /** Row by row, clearing one more library composes. */
  lemma RemainingComposes(db: Db, libs: set<int>, lib: int, id: int)
    requires id in db.queue
    ensures Emptied(db, libs, id) ==> Emptied(db, libs + {lib}, id)
    ensures !Emptied(db, libs, id) ==>
      var mid := ClearSet(db, libs);
      && id in mid.queue
      && Remaining(mid, {lib}, id) == Remaining(db, libs + {lib}, id)
      && Emptied(mid, {lib}, id) == Emptied(db, libs + {lib}, id)
  {
    hide ClearSet, Touched, KeepOutside;
    TouchedUnion(db, libs, lib, id);
    var (wide, narrow) := (KeepOutside(db, libs, id), KeepOutside(db, libs + {lib}, id));
    FilterTwice(db.queue[id].outputPaths, wide, narrow);
    if !Emptied(db, libs, id) {
      LinksAfterClear(db, libs, lib, id);
      PathsAfterClear(db, libs, id);
      if lib in libs {
        assert libs + {lib} == libs;
      }
    }
  }

  /** Clearing one more library after a set of them is clearing the larger set. */
  lemma ClearOneMore(db: Db, libs: set<int>, lib: int)
    ensures ScanClearTx(ClearSet(db, libs), lib) == ClearSet(db, libs + {lib})
  {
    var mid := ClearSet(db, libs);
    ClearOne(mid, lib);
    var (a, b) := (ClearSet(mid, {lib}), ClearSet(db, libs + {lib}));
    forall id
      ensures Get(a.queue, id) == Get(b.queue, id)
    {
      ClearedRowComposes(db, libs, lib, id);
      ClearSetRow(mid, {lib}, id);
      ClearSetRow(db, libs + {lib}, id);
    }
    SameMap(a.queue, b.queue);
    assert a.scans == b.scans;
    forall l
      ensures l in a.links <==> l in b.links
    {
      LinkComposes(db, libs, lib, l);
      ClearSetLinks(mid, {lib}, l);
      ClearSetLinks(db, libs + {lib}, l);
    }
    assert a.links == b.links;
  }

  lemma ScansInUnion(db: Db, libs: set<int>, lib: int)
    ensures ScansIn(db, libs + {lib}) == ScansIn(db, libs) + ScansIn(ClearSet(db, libs), {lib})
  {
  }

  lemma ClearedRowComposes(db: Db, libs: set<int>, lib: int, id: int)
    ensures ClearedRow(ClearSet(db, libs), {lib}, id) == ClearedRow(db, libs + {lib}, id)
  {
    ScansInUnion(db, libs, lib);
    ClearSetRow(db, libs, id);
    if id in db.queue {
      RemainingComposes(db, libs, lib, id);
    }
  }

  lemma LinkComposes(db: Db, libs: set<int>, lib: int, l: (int, int))
    ensures
      var mid := ClearSet(db, libs);
      (l in mid.links && !Emptied(mid, {lib}, l.0) && l.1 !in ScansIn(mid, {lib}))
      <==> (l in db.links && !Emptied(db, libs + {lib}, l.0) && l.1 !in ScansIn(db, libs + {lib}))
  {
    ScansInUnion(db, libs, lib);
    ClearSetLinks(db, libs, l);
    ClearSetRow(db, libs, l.0);
    if l.0 in db.queue {
      RemainingComposes(db, libs, lib, l.0);
    }
  }

  function ClearEach(db: Db, libs: seq<int>): Db {
    if libs == [] then db else ScanClearTx(ClearEach(db, libs[..|libs| - 1]), libs[|libs| - 1])
  }

  lemma ClearNone(db: Db)
    ensures ClearSet(db, {}) == db
  {
  }

  /** Clearing libraries one after the other, in any order and with any repetition, is the same as
      clearing the set of them at once. */
  lemma {:induction false} ClearEachIsClearSet(db: Db, libs: seq<int>)
    ensures ClearEach(db, libs) == ClearSet(db, Elements(libs))
  {
    if libs == [] {
      ClearNone(db);
      assert Elements(libs) == {};
    } else {
      var (rest, last) := (libs[..|libs| - 1], libs[|libs| - 1]);
      ClearEachIsClearSet(db, rest);
      ClearOneMore(db, Elements(rest), last);
      assert libs == rest + [last];
      assert Elements(libs) == Elements(rest) + {last};
    }
  }

  lemma SameElements(xs: seq<int>, ys: seq<int>)
    requires forall lib :: lib in xs <==> lib in ys
    ensures Elements(xs) == Elements(ys)
  {
    forall lib
      ensures lib in Elements(xs) <==> lib in Elements(ys)
    {
      assert lib in xs <==> lib in ys;
    }
  }

  /** The order of clearing never matters. */
  lemma ClearOrderIrrelevant(db: Db, xs: seq<int>, ys: seq<int>)
    requires forall lib :: lib in xs <==> lib in ys
    ensures ClearEach(db, xs) == ClearEach(db, ys)
  {
    ClearEachIsClearSet(db, xs);
    ClearEachIsClearSet(db, ys);
    SameElements(xs, ys);
  }

  /** Clearing A then B reaches the same rows, destinations, links and scan results as B then A. */
  lemma ClearCommutes(db: Db, libA: int, libB: int)
    ensures ScanClearTx(ScanClearTx(db, libA), libB) == ScanClearTx(ScanClearTx(db, libB), libA)
  {
    ClearOne(db, libA);
    ClearOne(db, libB);
    ClearOneMore(db, {libA}, libB);
    ClearOneMore(db, {libB}, libA);
    assert {libA} + {libB} == {libB} + {libA};
  }
}

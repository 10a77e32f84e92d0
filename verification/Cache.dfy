/** The lyrics cache: which entry a lookup finds, and what storing does to it. */
module Cache {
  import opened Schema
  import opened Transactions

  predicate EntryFor(db: Db, artistKey: string, titleKey: string, k: CacheKey) {
    k in db.cache && k.artist == artistKey && k.title == titleKey
  }

  /** Some album's lyrics are stored for these keys. */
  ghost predicate Cached(db: Db, artistKey: string, titleKey: string) {
    exists k :: EntryFor(db, artistKey, titleKey, k)
  }

  /** ORDER BY updated_at DESC, id DESC. */
  predicate Newer(a: CacheRow, b: CacheRow) {
    a.updatedAt > b.updatedAt || (a.updatedAt == b.updatedAt && a.id > b.id)
  }

  predicate NewerEntry(db: Db, k: CacheKey, other: CacheKey) {
    k in db.cache && other in db.cache && Newer(db.cache[k], db.cache[other])
  }

  predicate IsLatest(db: Db, artistKey: string, titleKey: string, k: CacheKey) {
    && EntryFor(db, artistKey, titleKey, k)
    && forall other :: other in db.cache && EntryFor(db, artistKey, titleKey, other) && other != k ==>
         NewerEntry(db, k, other)
  }

  /** Among finitely many matching entries one is the latest. */
  lemma {:induction false} LatestAmong(db: Db, artistKey: string, titleKey: string, keys: set<CacheKey>, member: CacheKey)
    returns (best: CacheKey)
    requires CacheOk(db) && member in keys && forall x :: x in keys ==> EntryFor(db, artistKey, titleKey, x)
    ensures best in keys && forall x :: x in keys && x != best ==> NewerEntry(db, best, x)
    decreases |keys|
  {
    best := member;
    var rest := keys - {member};
    if next: CacheKey :| next in rest {
      var latest := LatestAmong(db, artistKey, titleKey, rest, next);
      NewerIsTotal(db, member, latest);
      if !NewerEntry(db, member, latest) {
        best := latest;
      }
    }
    forall x | x in keys && x != best
      ensures NewerEntry(db, best, x)
    {
      assert x in rest || x == member;
      assert EntryFor(db, artistKey, titleKey, x);
    }
  }

  lemma NewerIsTotal(db: Db, a: CacheKey, b: CacheKey)
    requires CacheOk(db) && a in db.cache && b in db.cache && a != b
    ensures NewerEntry(db, a, b) || NewerEntry(db, b, a)
  {
  }

  ghost function Latest(db: Db, artistKey: string, titleKey: string): Option<CacheKey> {
    if exists k :: IsLatest(db, artistKey, titleKey, k) then
      var k :| IsLatest(db, artistKey, titleKey, k);
      Some(k)
    else
      None
  }

  /** A fallback lookup finds an entry exactly when there is one, and then only one it can find. */
  lemma LatestIsUnique(cfg: Config, db: Db, artistKey: string, titleKey: string)
    requires Inv(cfg, db)
    ensures Cached(db, artistKey, titleKey) <==> Latest(db, artistKey, titleKey).Some?
    ensures forall k :: IsLatest(db, artistKey, titleKey, k) <==> Latest(db, artistKey, titleKey) == Some(k)
  {
    if k: CacheKey :| EntryFor(db, artistKey, titleKey, k) {
      var all := set x | x in db.cache && EntryFor(db, artistKey, titleKey, x);
      var best := LatestAmong(db, artistKey, titleKey, all, k);
      assert IsLatest(db, artistKey, titleKey, best);
    }
    forall a, b | IsLatest(db, artistKey, titleKey, a) && IsLatest(db, artistKey, titleKey, b)
      ensures a == b
    {
    }
  }

  /** By the columns alone: of all entries for these keys none was updated later, and of those
      updated at the same time none has a greater id. */
  ghost predicate MostRecent(db: Db, artistKey: string, titleKey: string, k: CacheKey) {
    && k in db.cache && k.artist == artistKey && k.title == titleKey
    && forall other :: other in db.cache && other.artist == artistKey && other.title == titleKey ==>
         && db.cache[other].updatedAt <= db.cache[k].updatedAt
         && (db.cache[other].updatedAt == db.cache[k].updatedAt ==> db.cache[other].id <= db.cache[k].id)
  }

  /** A fallback lookup finds exactly that entry. */
  lemma LatestIsMostRecent(cfg: Config, db: Db, artistKey: string, titleKey: string, k: CacheKey)
    requires Inv(cfg, db)
    ensures Latest(db, artistKey, titleKey) == Some(k) <==> MostRecent(db, artistKey, titleKey, k)
  {
    LatestIsUnique(cfg, db, artistKey, titleKey);
    if MostRecent(db, artistKey, titleKey, k) {
      assert IsLatest(db, artistKey, titleKey, k);
    }
    if IsLatest(db, artistKey, titleKey, k) {
      forall other | other in db.cache && other.artist == artistKey && other.title == titleKey && other != k
        ensures NewerEntry(db, k, other)
      {
        assert EntryFor(db, artistKey, titleKey, other);
      }
    }
  }

  /** What is stored is what an exact lookup reads, stamped with the whole second of the store; an
      overwritten entry keeps its id, and no other entry changes. */
  lemma StoreThenExact(cfg: Config, db: Db, artist: string, title: string, album: string, lyrics: string, now: int)
    ensures var k := CacheKey(cfg.norm(artist), cfg.norm(title), cfg.norm(album));
      var db' := StoreTx(cfg, db, artist, title, album, lyrics, now);
      db' == db.(
        cache := db.cache[k := CacheRow(if k in db.cache then db.cache[k].id else db.nextCache, lyrics, Seconds(now))],
        nextCache := if k in db.cache then db.nextCache else db.nextCache + 1)
  {
  }

  /** A store leaves the artist and title cached. */
  lemma StoreCaches(cfg: Config, db: Db, track: Track, lyrics: string, now: int)
    ensures Cached(StoreTx(cfg, db, track.artist, track.title, track.album, lyrics, now), cfg.norm(track.artist), cfg.norm(track.title))
  {
    var key := KeyFor(cfg, track.artist, track.title, track.album);
    assert EntryFor(StoreTx(cfg, db, track.artist, track.title, track.album, lyrics, now), key.artist, key.title, key);
  }

  /** No other album's entry for the same artist and title is at least as recent as a store now:
      not stamped later, nor in the same second under a greater id. */
  ghost predicate NothingNewer(cfg: Config, db: Db, k: CacheKey, now: int) {
    forall other :: other in db.cache && other != k && EntryFor(db, k.artist, k.title, other) ==>
      || db.cache[other].updatedAt < Seconds(now)
      || (db.cache[other].updatedAt == Seconds(now) && db.cache[other].id < if k in db.cache then db.cache[k].id else db.nextCache)
  }

  /** A fallback lookup right after a store finds the entry just stored exactly when no other
      album's entry is at least as recent: times have whole seconds only, so overwriting an old
      entry in the second in which a younger one was written does not make it the latest. */
  lemma StoreThenFallback(cfg: Config, db: Db, artist: string, title: string, album: string, lyrics: string, now: int)
    requires Inv(cfg, db)
    ensures var k := KeyFor(cfg, artist, title, album);
      var db' := StoreTx(cfg, db, artist, title, album, lyrics, now);
      IsLatest(db', k.artist, k.title, k) <==> NothingNewer(cfg, db, k, now)
  {
    var k := KeyFor(cfg, artist, title, album);
    var db' := StoreTx(cfg, db, artist, title, album, lyrics, now);
    forall other | other in db.cache && other != k && EntryFor(db, k.artist, k.title, other)
      ensures EntryFor(db', k.artist, k.title, other) && db'.cache[other] == db.cache[other]
    {
    }
  }

  /** With a clock that has not gone back, a store under a new album is always found. */
  lemma FreshStoreIsLatest(cfg: Config, db: Db, artist: string, title: string, album: string, lyrics: string, now: int)
    requires Inv(cfg, db) && KeyFor(cfg, artist, title, album) !in db.cache
    requires forall k :: k in db.cache ==> db.cache[k].updatedAt <= Seconds(now)
    ensures var k := KeyFor(cfg, artist, title, album);
      IsLatest(StoreTx(cfg, db, artist, title, album, lyrics, now), k.artist, k.title, k)
  {
  }

  /** A concrete miss, for every normalizer that keeps the two album names apart: two albums
      stored, and the older one overwritten, within one second. */
  lemma OverwriteCanStayHidden(cfg: Config, now: int)
    requires cfg.norm("x") != cfg.norm("y")
    ensures var first := StoreTx(cfg, EMPTY, "a", "t", "x", "one", now);
      var db := StoreTx(cfg, StoreTx(cfg, first, "a", "t", "y", "two", now), "a", "t", "x", "three", now);
      var (artistKey, titleKey) := (cfg.norm("a"), cfg.norm("t"));
      && IsLatest(db, artistKey, titleKey, KeyFor(cfg, "a", "t", "y"))
      && !IsLatest(db, artistKey, titleKey, KeyFor(cfg, "a", "t", "x"))
      && db.cache[KeyFor(cfg, "a", "t", "x")].lyrics == "three"
  {
    var (kx, ky) := (KeyFor(cfg, "a", "t", "x"), KeyFor(cfg, "a", "t", "y"));
    var first := StoreTx(cfg, EMPTY, "a", "t", "x", "one", now);
    var second := StoreTx(cfg, first, "a", "t", "y", "two", now);
    var db := StoreTx(cfg, second, "a", "t", "x", "three", now);
    assert db.cache == map[kx := CacheRow(1, "three", Seconds(now)), ky := CacheRow(2, "two", Seconds(now))];
    assert EntryFor(db, kx.artist, kx.title, ky) && NewerEntry(db, ky, kx);
  }

  /** Whether keys are cached depends on the cache alone. */
  lemma SameCache(db: Db, db': Db, artistKey: string, titleKey: string)
    requires db'.cache == db.cache
    ensures Cached(db, artistKey, titleKey) == Cached(db', artistKey, titleKey)
  {
    assert forall k :: EntryFor(db, artistKey, titleKey, k) == EntryFor(db', artistKey, titleKey, k);
  }

  // ----- done rows are cached -----

  /** Every done row's artist and title have an entry. */
  ghost predicate DoneCached(db: Db) {
    forall id :: InStatus(db, id, Done) ==> Cached(db, db.queue[id].artistKey, db.queue[id].titleKey)
  }
}

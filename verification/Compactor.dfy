/** Compaction: restore a chain and save the result as a full snapshot (pkg/compactor/compactor.go). */
module Compactor {
  import opened Etcd
  import opened Restorer
  import opened RestoreTheorems
  import opened SnapTypes
  import opened Selection
  import opened Listings
  import opened BackupStore
  import opened Snapshotter
  import opened RoundTrip

  /** The full snapshot that a restored database is saved as. */
  ghost predicate IsCompacted(s: Snapshot, db: Db, list: seq<Snapshot>, deltas: seq<Snapshot>, now: int) {
    && s.IsFull() && s.startRevision == 0 && s.lastRevision == db.revision && s.createdOn == now
    && s.immutabilityExpiryTime.None?
    && LastFull(list) >= 0 && s.isFinal == list[LastFull(list)].isFinal
    && s.compressionSuffix == NewestOf(list[LastFull(list)], deltas).compressionSuffix
  }

  /** The end of a chain. */
  function NewestOf(base: Snapshot, deltas: seq<Snapshot>): Snapshot {
    if deltas == [] then base else deltas[|deltas| - 1]
  }

  /** Compacts the chain listed from `store` and saves into `current`, which the snapshotter may
      have added to in the meantime. */
  method Compact(store: Store, list: seq<Snapshot>, current: Store, now: int)
    returns (compacted: Option<Snapshot>, after: Store)
    requires forall s :: s in list ==> s in store
    requires forall s :: s in list && s.IsFull() ==> store[s].FullData?
    ensures LastFull(list) < 0 ==> compacted.None?
    ensures compacted.None? ==> after == current
    ensures LastFull(list) >= 0 ==>
              exists deltas, r ::
                && RestoredFrom(store, list, deltas, r)
                && (compacted.Some? <==> r.Restored?)
                && (compacted.Some? ==>
                      && IsCompacted(compacted.value, r.db, list, deltas, now)
                      && after == current[compacted.value := FullData(r.db)])
    ensures compacted.Some? && StrictlyByRevision(Tail(list)) ==> RestoreLatest(store, list).Restored?
    ensures compacted.Some? && StrictlyByRevision(Tail(list)) ==>
              var db := RestoreLatest(store, list).db;
              && IsCompacted(compacted.value, db, list, Tail(list), now)
              && after == current[compacted.value := FullData(db)]
  {
    hide Tail, LastFull, RestoreLatest, RestoredFrom;
    var full, _ := GetLatestFullSnapshotAndDeltaSnapList(list);
    var result, deltas := SelectAndRestore(store, list);
    compacted, after := None, current;
    if result.Some? {
      assert RestoredFrom(store, list, deltas, result.value);
      if result.value.Restored? {
        var suffix := if deltas == [] then full.value.compressionSuffix else deltas[|deltas| - 1].compressionSuffix;
        var db := result.value.db;
        var s := NewSnapshot(Full, 0, db.revision, now, suffix, full.value.isFinal);
        compacted, after := Some(s), current[s := FullData(db)];
      }
    }
  }

  // ---------------------------------------------------------------------------
  // Compaction preserves what a restore gives
  // ---------------------------------------------------------------------------

  /** `later` is `store` after the snapshotter saved some deltas. */
  ghost predicate OnlyDeltasAdded(store: Store, later: Store) {
    && (forall s :: s in store ==> s in later && later[s] == store[s])
    && (forall s :: s in later && s !in store ==> !s.IsFull())
  }

  /** Two snapshots that end at the same revision in the same second may be listed either way. */
  predicate Tied(f: Snapshot, g: Snapshot) {
    f.lastRevision == g.lastRevision && f.createdOn == g.createdOn
  }

  /** Full snapshots that tie hold the same database. */
  ghost predicate TiedAlike(store: Store) {
    forall f, g :: f in store && g in store && f.IsFull() && g.IsFull() && Tied(f, g) ==> store[f] == store[g]
  }

  /** No full snapshot is newer than the base. */
  lemma BaseIsNewest(store: Store, list: seq<Snapshot>, f: Snapshot)
    requires IsListing(store, list) && LastFull(list) >= 0 && f in store && f.IsFull()
    ensures !Less(list[LastFull(list)], f)
  {
    var i :| 0 <= i < |list| && list[i] == f;
  }

  /** Two bases that are listed in both stores tie. */
  lemma BasesTie(storeA: Store, a: seq<Snapshot>, storeB: Store, b: seq<Snapshot>)
    requires IsListing(storeA, a) && LastFull(a) >= 0 && IsListing(storeB, b) && LastFull(b) >= 0
    requires a[LastFull(a)] in storeB && b[LastFull(b)] in storeA
    ensures Tied(a[LastFull(a)], b[LastFull(b)])
  {
    hide LastFull, IsListing;
    FullListedIsBase(a);
    FullListedIsBase(b);
    BaseIsNewest(storeA, a, b[LastFull(b)]);
    BaseIsNewest(storeB, b, a[LastFull(a)]);
  }

  /** What RestoredRevision says of a successful restore. */
  ghost predicate EndsAt(h: History, store: Store, base: Db, r: Db) {
    && r == StateAt(h, r.revision)
    && base.revision <= r.revision
    && (forall s :: s in store && !s.isChunk ==> s.lastRevision <= r.revision)
    && (r.revision == base.revision || exists d :: d in store && d.IsDelta() && d.lastRevision == r.revision)
  }

  lemma RestoreEnds(h: History, now: int, store: Store, list: seq<Snapshot>)
    requires ValidHistory(h) && StoreOk(h, now, store) && now <= LastRevisionOf(h)
    requires IsListing(store, list) && LastFull(list) >= 0
    ensures store[list[LastFull(list)]].FullData?
    ensures RestoreLatest(store, list).Restored? ==>
              EndsAt(h, store, BaseDb(store, list), RestoreLatest(store, list).db)
  {
    hide StoreOk, Tail, LastFull, IsListing, KvAt, ValidHistory, RestoreLatest;
    RestoredRevision(h, now, store, list);
    TailMembers(store, list);
    var tail := Tail(list);
    if tail != [] {
      assert tail[|tail| - 1] in tail;
    }
  }

  /** Restores that end at the maximum of the same deltas, from bases that do not exceed each
      other's end, give the same database. */
  lemma SameEnd(h: History, store: Store, other: Store, base: Db, base': Db, r: Db, r': Db)
    requires EndsAt(h, store, base, r) && EndsAt(h, other, base', r')
    requires forall d :: d in store && d.IsDelta() ==> d in other
    requires forall d :: d in other && d.IsDelta() ==> d in store
    requires base.revision <= r'.revision && base'.revision <= r.revision
    ensures r == r'
  {
  }

  lemma EndBelow(h: History, store: Store, later: Store, base: Db, r: Db, r': Db)
    requires EndsAt(h, store, base, r) && EndsAt(h, later, base, r')
    requires forall d :: d in store && d.IsDelta() ==> d in later
    ensures base.revision <= r.revision <= r'.revision
  {
  }

  /** After compaction the selected base holds exactly the restored revision, and is labelled so:
      it is the compacted snapshot, or one that ties with the old base. */
  lemma CompactedBase(h: History, now: int, store: Store, list: seq<Snapshot>, later: Store, c: Snapshot, db: Db,
                      afterList: seq<Snapshot>)
    requires ValidHistory(h) && now <= LastRevisionOf(h) && StoreOk(h, now, store) && StoreOk(h, now, later)
    requires IsListing(store, list) && LastFull(list) >= 0 && store[list[LastFull(list)]].FullData?
    requires RestoreLatest(store, list) == Restored(db) && OnlyDeltasAdded(store, later) && TiedAlike(later)
    requires c !in later && c.IsFull() && c.lastRevision == db.revision
    requires IsListing(later[c := FullData(db)], afterList)
    ensures var after := later[c := FullData(db)];
            && LastFull(afterList) >= 0 && after[afterList[LastFull(afterList)]].FullData?
            && afterList[LastFull(afterList)].lastRevision == db.revision
            && BaseDb(after, afterList).revision == db.revision
  {
    hide StoreOk, Tail, LastFull, Sorted, Distinct, KvAt, ValidHistory, RestoreLatest, TiedAlike, Reached, ExactSlice;
    var after := later[c := FullData(db)];
    RestoredRevision(h, now, store, list);
    FullListed(after, afterList, c);
    FullListedIsBase(list);
    FullListedIsBase(afterList);
    var base, base' := list[LastFull(list)], afterList[LastFull(afterList)];
    if base' != c {
      BaseIsNewest(after, afterList, c);
      FullIsOk(h, now, store, base');
      BasesTie(store, list, after, afterList);
      AlikeOf(later, base, base');
    }
  }

  lemma AlikeOf(store: Store, f: Snapshot, g: Snapshot)
    requires TiedAlike(store) && f in store && g in store && f.IsFull() && g.IsFull() && Tied(f, g)
    ensures store[f] == store[g]
  {
  }

  /** Adding the compacted snapshot, even after the snapshotter saved more deltas that straddle or
      end at its revision, makes the store restorable, to the state and revision that a restore
      without it gives if it succeeds. Deltas may tie with anything; full snapshots that tie have
      to hold the same. */
  lemma CompactionPreservesRestore(h: History, now: int, store: Store, list: seq<Snapshot>,
                                   later: Store, laterList: seq<Snapshot>, c: Snapshot, afterList: seq<Snapshot>)
    requires ValidHistory(h) && now <= LastRevisionOf(h)
    requires StoreOk(h, now, store) && IsListing(store, list) && LastFull(list) >= 0
    requires StoreOk(h, now, later) && IsListing(later, laterList)
    requires OnlyDeltasAdded(store, later) && TiedAlike(later)
    requires store[list[LastFull(list)]].FullData? && RestoreLatest(store, list).Restored?
    requires c !in later && c.IsFull() && c.lastRevision == RestoreLatest(store, list).db.revision
    requires IsListing(later[c := FullData(RestoreLatest(store, list).db)], afterList)
    ensures var db := RestoreLatest(store, list).db;
            var after := later[c := FullData(db)];
            && StoreOk(h, now, after)
            && LastFull(laterList) >= 0 && later[laterList[LastFull(laterList)]].FullData?
            && LastFull(afterList) >= 0 && after[afterList[LastFull(afterList)]].FullData?
            && RestoreLatest(after, afterList).Restored?
            && EndsAt(h, after, db, RestoreLatest(after, afterList).db)
            && (RestoreLatest(later, laterList).Restored? ==>
                  RestoreLatest(after, afterList) == RestoreLatest(later, laterList))
  {
    hide StoreOk, Tail, LastFull, Sorted, Distinct, KvAt, ValidHistory, RestoreLatest, TiedAlike, EndsAt, Reached,
         ExactSlice;
    var db := RestoreLatest(store, list).db;
    var after := later[c := FullData(db)];
    RestoredRevision(h, now, store, list);
    SaveFull(h, now, now, later, c, FullData(db));
    FullListedIsBase(list);
    FullListed(later, laterList, list[LastFull(list)]);
    FullListedIsBase(laterList);
    BasesTie(store, list, later, laterList);
    AlikeOf(later, list[LastFull(list)], laterList[LastFull(laterList)]);
    CompactedBase(h, now, store, list, later, c, db, afterList);
    AroundBase(after, afterList);
    RestoredRevision(h, now, after, afterList);
    var tail := Tail(afterList);
    assert tail != [] ==> tail[0] in tail;
    RestoreEnds(h, now, store, list);
    RestoreEnds(h, now, later, laterList);
    RestoreEnds(h, now, after, afterList);
    var base, base', r' := BaseDb(store, list), BaseDb(after, afterList), RestoreLatest(after, afterList).db;
    EndsAtRevision(h, after, base', db, r');
    if RestoreLatest(later, laterList).Restored? {
      var r := RestoreLatest(later, laterList).db;
      EndBelow(h, store, later, base, db, r);
      EndBelow(h, store, store, base, db, db);
      EndBelow(h, after, after, base', r', r');
      SameEnd(h, later, after, base, base', r, r');
    }
  }

  lemma EndsAtRevision(h: History, store: Store, base: Db, base': Db, r: Db)
    requires EndsAt(h, store, base, r) && base.revision == base'.revision
    ensures EndsAt(h, store, base', r)
  {
  }

  // ---------------------------------------------------------------------------
  // Full snapshots that tie and differ
  // ---------------------------------------------------------------------------

  /** A listing with a snapshot put before one it ties with. */
  function Inserted(list: seq<Snapshot>, k: nat, c: Snapshot): seq<Snapshot>
    requires k <= |list|
  {
    list[..k] + [c] + list[k..]
  }

  lemma InsertedAt(list: seq<Snapshot>, k: nat, c: Snapshot)
    requires k <= |list|
    ensures var longer := Inserted(list, k, c);
            && |longer| == |list| + 1 && longer[k] == c
            && (forall p :: 0 <= p < k ==> longer[p] == list[p])
            && (forall p :: k < p < |longer| ==> longer[p] == list[p - 1])
            && (forall s :: s in longer <==> s in list || s == c)
  {
    var longer := Inserted(list, k, c);
    forall s ensures s in longer <==> s in list || s == c {
      if s in list {
        var i :| 0 <= i < |list| && list[i] == s;
        assert longer[if i < k then i else i + 1] == s;
      }
      assert longer[k] == c;
    }
  }

  lemma InsertedSorted(list: seq<Snapshot>, k: nat, c: Snapshot)
    requires Sorted(list) && k < |list| && !c.isChunk && !list[k].isChunk && Tied(c, list[k])
    ensures Sorted(Inserted(list, k, c))
  {
    hide Inserted;
    InsertedAt(list, k, c);
    var longer := Inserted(list, k, c);
    forall p, q | 0 <= p < q < |longer| && !longer[p].isChunk && !longer[q].isChunk
      ensures !Less(longer[q], longer[p])
    {
      var p', q' := if p <= k then p else p - 1, if q <= k then q else q - 1;
      assert p' < q' ==> !Less(list[q'], list[p']);
    }
  }

  lemma InsertTied(store: Store, list: seq<Snapshot>, k: nat, c: Snapshot, content: Content)
    requires IsListing(store, list) && k < |list| && c !in store && !c.isChunk && !list[k].isChunk && Tied(c, list[k])
    ensures IsListing(store[c := content], Inserted(list, k, c))
  {
    hide Inserted, Sorted, Less, Tied;
    InsertedAt(list, k, c);
    InsertedSorted(list, k, c);
    var longer := Inserted(list, k, c);
    forall p, q | 0 <= p < q < |longer| ensures longer[p] != longer[q] {
      var p', q' := if p <= k then p else p - 1, if q <= k then q else q - 1;
      assert p != k && q != k ==> longer[p] == list[p'] && longer[q] == list[q'];
    }
  }

  /** Exchanging two snapshots that tie gives another listing. */
  lemma SwapTied(store: Store, list: seq<Snapshot>, i: nat, k: nat)
    requires IsListing(store, list) && i < k < |list| && !list[i].isChunk && !list[k].isChunk && Tied(list[i], list[k])
    ensures IsListing(store, list[i := list[k]][k := list[i]])
  {
    var other := list[i := list[k]][k := list[i]];
    forall p, q | 0 <= p < q < |other| && !other[p].isChunk && !other[q].isChunk ensures !Less(other[q], other[p]) {
      assert !Less(list[q], list[p]);
    }
    forall s ensures s in other <==> s in store {
      if s in list {
        var j :| 0 <= j < |list| && list[j] == s;
        assert other[if j == i then k else if j == k then i else j] == s;
      }
    }
  }

  /** The condition is needed: wherever the newest full snapshot is labelled with what it holds and
      not followed by deltas, and one that ties with it holds more, compacting in the same second
      can change what is restored. */
  lemma TiesBreakCompaction(h: History, now: int, store: Store, list: seq<Snapshot>, f: Snapshot, c: Snapshot)
    returns (afterList: seq<Snapshot>)
    requires ValidHistory(h) && now <= LastRevisionOf(h) && StoreOk(h, now, store)
    requires IsListing(store, list) && LastFull(list) >= 0 && Tail(list) == []
    requires var g := list[LastFull(list)];
             && f in store && f.IsFull() && f != g && Tied(f, g) && c !in store && c.IsFull() && Tied(c, g)
             && store[f].FullData? && store[g].FullData?
             && store[g].db.revision == g.lastRevision < store[f].db.revision
    ensures var after := store[c := FullData(RestoreLatest(store, list).db)];
            && RestoreLatest(store, list) == Restored(StateAt(h, c.lastRevision))
            && IsListing(after, afterList) && LastFull(afterList) >= 0 && afterList[LastFull(afterList)] == f
            && RestoreLatest(after, afterList) == Restored(StateAt(h, store[f].db.revision))
  {
    hide StoreOk, LastFull, KvAt, ValidHistory, RestoreLatest, Sorted, Distinct, Tail;
    FullListedIsBase(list);
    RestoredRevision(h, now, store, list);
    AroundBase(store, list);
    FullIsOk(h, now, store, f);
    var content := FullData(RestoreLatest(store, list).db);
    var after := store[c := content];
    SaveFull(h, now, now, store, c, content);
    afterList := OtherListing(store, list, f, c, content);
    RestoredRevision(h, now, after, afterList);
  }

  /** The base exchanged with a snapshot it ties with, and another one put before it. */
  lemma OtherListing(store: Store, list: seq<Snapshot>, f: Snapshot, c: Snapshot, content: Content)
    returns (other: seq<Snapshot>)
    requires IsListing(store, list) && LastFull(list) >= 0 && f in store && f.IsFull() && c !in store && c.IsFull()
    requires var g := list[LastFull(list)]; f != g && Tied(f, g) && Tied(c, g)
    ensures IsListing(store[c := content], other) && LastFull(other) >= 0 && other[LastFull(other)] == f
    ensures Tail(other) == Tail(list)
  {
    hide LastFull, Less, WithoutChunks, Sorted, Distinct, Inserted, Tied;
    FullListedIsBase(list);
    LastFullIsLast(list);
    var k := LastFull(list);
    var i :| 0 <= i < |list| && list[i] == f;
    InsertTied(store, list, k, c, content);
    InsertedAt(list, k, c);
    var longer := Inserted(list, k, c);
    assert longer[i] == f && longer[k + 1] == list[k];
    SwapTied(store[c := content], longer, i, k + 1);
    other := longer[i := list[k]][k + 1 := f];
    hide IsListing;
    assert |other| == |list| + 1 && other[k + 1] == f;
    assert forall j :: k + 1 < j < |other| ==> other[j] == list[j - 1];
    hide Tail;
    SameTail(list, other, k);
  }

  lemma SameTail(list: seq<Snapshot>, other: seq<Snapshot>, k: nat)
    requires LastFull(list) == k && |other| == |list| + 1 && other[k + 1].IsFull()
    requires forall j :: k + 1 < j < |other| ==> other[j] == list[j - 1]
    ensures LastFull(other) == k + 1 && Tail(other) == Tail(list)
  {
    LastFullIsLast(list);
    hide LastFull, WithoutChunks;
    assert other[k + 2..] == list[k + 1..];
    LastFullUnique(other, k + 1);
  }

  /** For example: a full snapshot that holds more than its label ties with one that does not. */
  lemma TiedFullsExample(h: History)
    requires ValidHistory(h) && LastRevisionOf(h) >= 3
    ensures var f, g := NewSnapshot(Full, 0, 2, 5, "", true), NewSnapshot(Full, 0, 2, 5, "", false);
            var c := NewSnapshot(Full, 0, 2, 4, "", false);
            var store: Store := map[f := FullData(StateAt(h, 3)), g := FullData(StateAt(h, 2))];
            var after := store[c := FullData(StateAt(h, 2))];
            && StoreOk(h, 3, store) && IsListing(store, [f, g]) && IsListing(after, [c, g, f])
            && LastFull([f, g]) == 1 && LastFull([c, g, f]) == 2
            && RestoreLatest(store, [f, g]) == Restored(StateAt(h, 2))
            && RestoreLatest(after, [c, g, f]) == Restored(StateAt(h, 3))
  {
    hide ValidHistory, KvAt, RestoreLatest;
    var f, g := NewSnapshot(Full, 0, 2, 5, "", true), NewSnapshot(Full, 0, 2, 5, "", false);
    var c := NewSnapshot(Full, 0, 2, 4, "", false);
    var store: Store := map[f := FullData(StateAt(h, 3)), g := FullData(StateAt(h, 2))];
    var after := store[c := FullData(StateAt(h, 2))];
    LastFullUnique([f, g], 1);
    LastFullUnique([c, g, f], 2);
    TiedStores(h, f, g, c);
    assert [f, g][2..] == [] && [c, g, f][3..] == [];
    NoChunksInNothing();
    assert Tail([f, g]) == [] && Tail([c, g, f]) == [];
    hide StoreOk, IsListing, LastFull, Tail;
    RestoredRevision(h, 3, store, [f, g]);
    RestoredRevision(h, 3, after, [c, g, f]);
  }

  lemma TiedStores(h: History, f: Snapshot, g: Snapshot, c: Snapshot)
    requires LastRevisionOf(h) >= 3
    requires f.IsFull() && g.IsFull() && c.IsFull() && f != g && f != c && g != c && Tied(f, g) && f.lastRevision == 2
    requires c.lastRevision == 2 && c.createdOn < f.createdOn
    ensures var store: Store := map[f := FullData(StateAt(h, 3)), g := FullData(StateAt(h, 2))];
            var after := store[c := FullData(StateAt(h, 2))];
            && StoreOk(h, 3, store) && IsListing(store, [f, g])
            && StoreOk(h, 3, after) && IsListing(after, [c, g, f])
  {
    hide KvAt, StoreOk;
    var empty: Store := map[];
    EmptyStore(h);
    var one := empty[f := FullData(StateAt(h, 3))];
    SaveFull(h, 3, 3, empty, f, FullData(StateAt(h, 3)));
    var two := one[g := FullData(StateAt(h, 2))];
    SaveFull(h, 3, 3, one, g, FullData(StateAt(h, 2)));
    SaveFull(h, 3, 3, two, c, FullData(StateAt(h, 2)));
    assert two == map[f := FullData(StateAt(h, 3)), g := FullData(StateAt(h, 2))];
  }

  // ---------------------------------------------------------------------------
  // A delta and a full snapshot that tie
  // ---------------------------------------------------------------------------

  function TieStoreOf(h: History, full: Snapshot, d: Snapshot, e: Snapshot): Store {
    map[full := FullData(StateAt(h, 3)), d := DeltaData(Between(h, 2, 2)), e := DeltaData(Between(h, 3, 3))]
  }

  /** Restoring a listing as such does depend on the order of ties: here a delta ends at the label
      of the base in the same second, and one of the two sorted listings restores while the other
      does not. */
  lemma TieOrderMatters(h: History)
    requires ValidHistory(h) && LastRevisionOf(h) >= 3
    ensures var full := NewSnapshot(Full, 0, 2, 0, "", false);
            var d, e := NewSnapshot(Incr, 2, 2, 0, "", false), NewSnapshot(Incr, 3, 3, 1, "", false);
            var store := TieStoreOf(h, full, d, e);
            && StoreOk(h, 3, store) && IsListing(store, [d, full, e]) && IsListing(store, [full, d, e])
            && LastFull([d, full, e]) == 1 && LastFull([full, d, e]) == 0
            && RestoreLatest(store, [d, full, e]) == Restored(StateAt(h, 3))
            && RestoreLatest(store, [full, d, e]).FailedAt?
  {
    hide ValidHistory, KvAt, Between, RestoreLatest;
    var full := NewSnapshot(Full, 0, 2, 0, "", false);
    var d, e := NewSnapshot(Incr, 2, 2, 0, "", false), NewSnapshot(Incr, 3, 3, 1, "", false);
    var store := TieStoreOf(h, full, d, e);
    TieStore(h, full, d, e, store);
    TieListings(full, d, e, store);
    TieTails(full, d, e);
    hide StoreOk, IsListing, LastFull, Tail;
    RestoredRevision(h, 3, store, [d, full, e]);
    RestoredRevision(h, 3, store, [full, d, e]);
  }

  lemma TieStore(h: History, full: Snapshot, d: Snapshot, e: Snapshot, store: Store)
    requires LastRevisionOf(h) >= 3
    requires full == NewSnapshot(Full, 0, 2, 0, "", false)
    requires d == NewSnapshot(Incr, 2, 2, 0, "", false) && e == NewSnapshot(Incr, 3, 3, 1, "", false)
    requires store == TieStoreOf(h, full, d, e)
    ensures StoreOk(h, 3, store)
  {
    hide KvAt, Between, StoreOk;
    var empty: Store := map[];
    assert StoreOk(h, 3, empty) by { EmptyStore(h); }
    var one := empty[full := FullData(StateAt(h, 3))];
    SaveFull(h, 3, 3, empty, full, FullData(StateAt(h, 3)));
    var two := one[d := DeltaData(Between(h, 2, 2))];
    SaveDelta(h, 3, one, d, DeltaData(Between(h, 2, 2)));
    SaveDelta(h, 3, two, e, DeltaData(Between(h, 3, 3)));
    assert store == two[e := DeltaData(Between(h, 3, 3))];
  }

  lemma EmptyStore(h: History)
    ensures StoreOk(h, 3, map[])
  {
  }

  lemma TieListings(full: Snapshot, d: Snapshot, e: Snapshot, store: Store)
    requires full.IsFull() && d.IsDelta() && e.IsDelta() && d != e && store.Keys == {full, d, e}
    requires full.lastRevision == d.lastRevision < e.lastRevision && full.createdOn == d.createdOn
    ensures IsListing(store, [d, full, e]) && IsListing(store, [full, d, e])
  {
  }

  lemma TieTails(full: Snapshot, d: Snapshot, e: Snapshot)
    requires full.IsFull() && d.IsDelta() && e.IsDelta()
    ensures LastFull([d, full, e]) == 1 && Tail([d, full, e]) == [e]
    ensures LastFull([full, d, e]) == 0 && Tail([full, d, e]) == [d, e]
  {
    hide LastFull;
    LastFullUnique([d, full, e], 1);
    LastFullUnique([full, d, e], 0);
    assert [d, full, e][2..] == [e] && [full, d, e][1..] == [d, e];
    assert [d, e][..1] == [d] && [d][..0] == [] && [e][..0] == [];
    assert WithoutChunks([d]) == [d];
  }

  lemma LastFullUnique(list: seq<Snapshot>, k: nat)
    requires k < |list| && list[k].IsFull() && forall i :: k < i < |list| ==> !list[i].IsFull()
    ensures LastFull(list) == k
  {
  }
}

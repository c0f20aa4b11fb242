/** Backup followed by restore (pkg/snapshot/restorer/restorer.go over what
    pkg/snapshot/snapshotter/snapshotter.go has saved). */
module RoundTrip {
  import opened Etcd
  import opened Restorer
  import opened RestoreTheorems
  import opened SnapTypes
  import opened Selection
  import opened BackupStore
  import opened Snapshotter

  /** The database a restore from this listing starts from. */
  function BaseDb(store: Store, list: seq<Snapshot>): Db
    requires LastFull(list) >= 0 && list[LastFull(list)] in store && store[list[LastFull(list)]].FullData?
  {
    store[list[LastFull(list)]].db
  }

  /** The outcome of selecting from this listing and restoring. */
  function RestoreLatest(store: Store, list: seq<Snapshot>): RestoreResult
    requires forall s :: s in list ==> s in store
    requires LastFull(list) >= 0 && store[list[LastFull(list)]].FullData?
  {
    TailInList(list);
    Restore(BaseDb(store, list), Fetched(store, Tail(list)))
  }

  lemma TailInList(list: seq<Snapshot>)
    ensures forall s :: s in Tail(list) ==> s in list
  {
    WithoutChunksMembers(list[LastFull(list) + 1..]);
  }

  /** `r` is the outcome of restoring the base and the deltas selected from the listing, sorted
      with ties in any order. */
  ghost predicate RestoredFrom(store: Store, list: seq<Snapshot>, deltas: seq<Snapshot>, r: RestoreResult) {
    && multiset(deltas) == multiset(Tail(list)) && Sorted(deltas)
    && (forall s :: s in deltas ==> s in store)
    && LastFull(list) >= 0 && list[LastFull(list)] in store && store[list[LastFull(list)]].FullData?
    && r == Restore(BaseDb(store, list), Fetched(store, deltas))
  }

  /** Deltas that end at different revisions leave no choice. */
  lemma UniqueSelection(store: Store, list: seq<Snapshot>, deltas: seq<Snapshot>, r: RestoreResult)
    requires (forall s :: s in list ==> s in store) && StrictlyByRevision(Tail(list))
    requires RestoredFrom(store, list, deltas, r)
    ensures r == RestoreLatest(store, list) && deltas == Tail(list)
  {
    hide Restore;
    WithoutChunksMembers(list[LastFull(list) + 1..]);
    SortedUnique(Tail(list), deltas);
  }

  /** Selects, fetches and restores; None when the store has no full snapshot. */
  method SelectAndRestore(store: Store, list: seq<Snapshot>)
    returns (result: Option<RestoreResult>, deltas: seq<Snapshot>)
    requires forall s :: s in list ==> s in store
    requires forall s :: s in list && s.IsFull() ==> store[s].FullData?
    ensures result.None? <==> LastFull(list) < 0
    ensures result.Some? ==> RestoredFrom(store, list, deltas, result.value)
    ensures result.Some? && StrictlyByRevision(Tail(list)) ==>
              result.value == RestoreLatest(store, list) && deltas == Tail(list)
  {
    hide Restore, Sorted, Tail, LastFull;
    var full;
    full, deltas := GetLatestFullSnapshotAndDeltaSnapList(list);
    if full.None? {
      return None, deltas;
    }
    TailInList(list);
    forall s | s in deltas ensures s in store {
      assert s in multiset(deltas);
    }
    var r := RestoreDeltas(store[full.value].db, Fetched(store, deltas));
    FullListedIsBase(list);
    assert RestoredFrom(store, list, deltas, r);
    if StrictlyByRevision(Tail(list)) {
      UniqueSelection(store, list, deltas, r);
    }
    result := Some(r);
  }

  // ---------------------------------------------------------------------------
  // The round trip
  // ---------------------------------------------------------------------------

  /** A restore succeeds exactly when there is no delta or the first one reaches the revision
      the base holds. It then rebuilds the original etcd, at the largest revision stored. */
  lemma RestoredRevision(h: History, now: int, store: Store, list: seq<Snapshot>)
    requires ValidHistory(h) && StoreOk(h, now, store) && now <= LastRevisionOf(h)
    requires IsListing(store, list) && LastFull(list) >= 0
    ensures store[list[LastFull(list)]].FullData?
    ensures var base, tail, result := BaseDb(store, list), Tail(list), RestoreLatest(store, list);
            && (result.Restored? <==> tail == [] || base.revision <= tail[0].lastRevision)
            && (result.Restored? ==>
                  && result.db == StateAt(h, result.db.revision)
                  && 1 <= base.revision <= result.db.revision <= now
                  && (forall s :: s in store && !s.isChunk ==> s.lastRevision <= result.db.revision)
                  && result.db.revision == if tail == [] then base.revision else tail[|tail| - 1].lastRevision)
  {
    hide StoreOk, Tail, LastFull, Chain, IsListing, Reached, KvAt, ValidHistory, Restore;
    SelectedChain(h, now, store, list);
    SelectedEnd(h, now, store, list);
    TailOrder(h, now, store, list);
    var base, tail := list[LastFull(list)], Tail(list);
    ChainRestores(h, store[base].db.revision, Fetched(store, tail));
  }

  /** The round trip: in every state of the chain invariant a restore that succeeds gives back
      the etcd of PrevSnapshot's revision, or of the newer one the base holds when there is no
      delta on top of it. */
  lemma BackupRestoreRoundTrip(c: Config, s: State, list: seq<Snapshot>)
    requires StoreInv(c, s) && IsListing(s.store, list) && LastFull(list) >= 0
    ensures s.store[list[LastFull(list)]].FullData?
    ensures var base, tail, result := BaseDb(s.store, list), Tail(list), RestoreLatest(s.store, list);
            && (result.Restored? <==> tail == [] || base.revision <= tail[0].lastRevision)
            && (result.Restored? && tail != [] ==> result.db == StateAt(c.history, s.prevSnapshot.lastRevision))
            && (result.Restored? && tail == [] ==>
                  result.db == StateAt(c.history, base.revision) && s.prevSnapshot.lastRevision <= base.revision)
  {
    hide StoreOk, Tail, LastFull, IsListing, KvAt, ValidHistory, RecentOk, RestoreLatest;
    RestoredRevision(c.history, s.etcdRevision, s.store, list);
    TailMembers(s.store, list);
    SelectedEnd(c.history, s.etcdRevision, s.store, list);
    AroundBase(s.store, list);
    FullIsOk(c.history, s.etcdRevision, s.store, list[LastFull(list)]);
    var tail := Tail(list);
    if tail != [] {
      assert tail[|tail| - 1] in tail;
      DeltaIsOk(c.history, s.etcdRevision, s.store, tail[|tail| - 1]);
    }
  }

  lemma FullListedIsBase(list: seq<Snapshot>)
    ensures LastFull(list) >= 0 ==> list[LastFull(list)] in list && list[LastFull(list)].IsFull()
  {
  }

  lemma FullListed(store: Store, list: seq<Snapshot>, f: Snapshot)
    requires IsListing(store, list) && f in store && f.IsFull()
    ensures LastFull(list) >= 0
  {
    var i :| 0 <= i < |list| && list[i] == f;
  }

  ghost predicate HasFull(store: Store) {
    exists f :: f in store && f.IsFull()
  }

  /** The revision a successful restore ends at. */
  function RestorePoint(s: State, base: Db, tail: seq<Snapshot>): int {
    if tail == [] then base.revision else s.prevSnapshot.lastRevision
  }

  /** The same over any run of the event handler up to its first exit: what could be restored
      before the run is still there, and a restore does not end before it. */
  lemma RunThenRestore(c: Config, s: State, inputs: seq<Input>, list: seq<Snapshot>)
    requires Inv(c, s) && IsListing(HandleAll(c, s, inputs).state.store, list)
    ensures HasFull(s.store) ==> LastFull(list) >= 0
    ensures var t := HandleAll(c, s, inputs).state;
            LastFull(list) >= 0 ==>
              && t.store[list[LastFull(list)]].FullData?
              && var base, tail, result := BaseDb(t.store, list), Tail(list), RestoreLatest(t.store, list);
                 && (result.Restored? <==> tail == [] || base.revision <= tail[0].lastRevision)
                 && (result.Restored? ==>
                       && result.db == StateAt(c.history, RestorePoint(t, base, tail))
                       && s.prevSnapshot.lastRevision <= t.prevSnapshot.lastRevision <= result.db.revision)
  {
    hide StoreInv, BufferInv, HandleAll, Tail, LastFull, RestoreLatest, KvAt, Sorted, Distinct;
    HandleAllKeeps(c, s, inputs);
    var t := HandleAll(c, s, inputs).state;
    if f :| f in s.store && f.IsFull() {
      assert Remembered(t.store, f);
      var g :| g in t.store && g.IsFull();
      FullListed(t.store, list, g);
    }
    if LastFull(list) >= 0 {
      BackupRestoreRoundTrip(c, t, list);
    }
  }

  /** A run of the event handler over any inputs and then a restore from the store it leaves
      behind, for whatever sorted order the store lists ties in. */
  method BackupThenRestore(ssr: Snapshotter, inputs: seq<Input>, lister: Store -> seq<Snapshot>)
    returns (outcome: Outcome, result: Option<RestoreResult>)
    requires Inv(ssr.config, ssr.Current())
    requires forall store: Store :: IsListing(store, lister(store))
    modifies ssr
    ensures Turn(ssr.Current(), outcome) == HandleAll(ssr.config, old(ssr.Current()), inputs)
    ensures StoreInv(ssr.config, ssr.Current())
    ensures HasFull(old(ssr.store)) ==> result.Some?
    ensures result.Some? ==>
              var list := lister(ssr.store);
              var tail := Tail(list);
              && LastFull(list) >= 0
              && list[LastFull(list)] in ssr.store && ssr.store[list[LastFull(list)]].FullData?
              && var base := BaseDb(ssr.store, list);
                 && (result.value.Restored? <==> tail == [] || base.revision <= tail[0].lastRevision)
                 && (result.value.Restored? ==>
                       && result.value.db == StateAt(ssr.config.history, RestorePoint(ssr.Current(), base, tail))
                       && old(ssr.prevSnapshot.lastRevision) <= result.value.db.revision)
  {
    hide StoreOk, Tail, LastFull, KvAt, ValidHistory, RecentOk, PrevOk, BufferOk, Sorted, Distinct, HandleAll,
         RestoreLatest, RestoredFrom;
    ghost var before := ssr.Current();
    outcome := ssr.SnapshotEventHandler(inputs);
    HandleAllKeeps(ssr.config, before, inputs);
    var list := lister(ssr.store);
    assert IsListing(ssr.store, list);
    forall s | s in list && s.IsFull() ensures ssr.store[s].FullData? {
      FullIsOk(ssr.config.history, ssr.etcdRevision, ssr.store, s);
    }
    TailOrder(ssr.config.history, ssr.etcdRevision, ssr.store, list);
    var deltas;
    result, deltas := SelectAndRestore(ssr.store, list);
    FullListedIsBase(list);
    RunThenRestore(ssr.config, before, inputs, list);
  }

  // ---------------------------------------------------------------------------
  // When the first delta ends below what the base holds
  // ---------------------------------------------------------------------------

  /** The inputs: a full snapshot during which etcd writes two more revisions, then a delta of
      only the first of them. */
  function LaggingInputs(isFinal: bool, lag: nat, t0: int, t1: int, t2: int): seq<Input> {
    [FullSnapshot(isFinal, lag, t0, NoFault), WatchResponse(1, false, t1, false), DeltaSnapshot(t2, false)]
  }

  /** Wherever the handler stands, these inputs leave a store that cannot be restored until the
      next snapshot. */
  lemma LaggingBaseFails(c: Config, s: State, lag: nat, t0: int, t1: int, t2: int, list: seq<Snapshot>)
    requires Sound(c, s) && c.deltasEnabled && lag >= 2 && s.etcdRevision + 2 <= LastRevisionOf(c.history)
    requires forall f :: f in s.store && f.IsFull() ==> f.lastRevision < s.etcdRevision
    requires IsListing(HandleAll(c, s, LaggingInputs(false, lag, t0, t1, t2)).state.store, list)
    ensures var t := HandleAll(c, s, LaggingInputs(false, lag, t0, t1, t2));
            && t.outcome.Running? && StoreInv(c, t.state)
            && LastFull(list) >= 0 && t.state.store[list[LastFull(list)]].FullData?
            && RestoreLatest(t.state.store, list).FailedAt?
  {
    hide StoreOk, PrevOk, RecentOk, ValidHistory, KvAt, HandleAll, Tail, LastFull, RestoreLatest, Sorted, Distinct;
    var full, delta, t := LaggingRun(c, s, lag, t0, t1, t2);
    FullListed(t.store, list, full);
    AroundBase(t.store, list);
    TailMembers(t.store, list);
    RestoredRevision(c.history, t.etcdRevision, t.store, list);
    var tail := Tail(list);
    assert list[LastFull(list)] == full;
    assert delta in tail && tail[0] in tail;
    assert tail[0].lastRevision <= t.prevSnapshot.lastRevision by { PrevIsLast(c, t, tail[0]); }
  }

  lemma PrevIsLast(c: Config, s: State, d: Snapshot)
    requires StoreInv(c, s) && d in s.store && d.IsDelta()
    ensures d.lastRevision <= s.prevSnapshot.lastRevision
  {
  }

  /** The state these inputs lead to. */
  lemma LaggingRun(c: Config, s: State, lag: nat, t0: int, t1: int, t2: int)
    returns (full: Snapshot, delta: Snapshot, t: State)
    requires Sound(c, s) && c.deltasEnabled && lag >= 2 && s.etcdRevision + 2 <= LastRevisionOf(c.history)
    requires forall f :: f in s.store && f.IsFull() ==> f.lastRevision < s.etcdRevision
    ensures HandleAll(c, s, LaggingInputs(false, lag, t0, t1, t2)) == Turn(t, Running)
    ensures StoreInv(c, t) && t.prevSnapshot.lastRevision == s.etcdRevision + 1
    ensures full in t.store && full.IsFull() && full.lastRevision == s.etcdRevision
    ensures forall f :: f in t.store && f.IsFull() && f != full ==> f.lastRevision < s.etcdRevision
    ensures t.store[full].FullData? && t.store[full].db.revision >= s.etcdRevision + 2
    ensures delta in t.store && delta.IsDelta() && delta.lastRevision == s.etcdRevision + 1
  {
    hide Inv, StoreInv, Handle, Delivered;
    var inputs := LaggingInputs(false, lag, t0, t1, t2);
    var first, second;
    full, first := LaggingFull(c, s, lag, t0);
    second := LaggingWatch(c, first, t1);
    delta, t := LaggingDelta(c, second, t2);
    ThreeInputs(c, s, inputs, first, second, t);
  }

  lemma LaggingFull(c: Config, s: State, lag: nat, t0: int) returns (full: Snapshot, t: State)
    requires Sound(c, s) && c.deltasEnabled && lag >= 2 && s.etcdRevision + 2 <= LastRevisionOf(c.history)
    requires forall f :: f in s.store && f.IsFull() ==> f.lastRevision < s.etcdRevision
    ensures Handle(c, s, FullSnapshot(false, lag, t0, NoFault)) == Turn(t, Running) && Inv(c, t)
    ensures t.prevSnapshot == full && full.lastRevision == s.etcdRevision >= 1 && t.events == []
    ensures t.watch == Some(s.etcdRevision + 1) && t.etcdRevision >= s.etcdRevision + 2
    ensures full in t.store && full.IsFull()
    ensures forall f :: f in t.store && f.IsFull() && f != full ==> f.lastRevision < s.etcdRevision
    ensures t.store[full].FullData? && t.store[full].db.revision >= s.etcdRevision + 2
  {
    hide StoreOk, PrevOk, RecentOk, ValidHistory, KvAt, Between;
    var taken := Min(s.etcdRevision + lag, LastRevisionOf(c.history));
    full := NewSnapshot(Full, 0, s.etcdRevision, t0, c.suffix, false);
    FullEstablishes(c, s, t0, false, lag);
    var closed := FullAdded(c, Cleared(s).(watch := None), full, taken);
    ReopenedKeeps(c, closed, NoFault);
    t := Opened(closed);
  }

  lemma LaggingWatch(c: Config, s: State, t1: int) returns (t: State)
    requires Inv(c, s) && s.events == [] && s.watch == Some(s.prevSnapshot.lastRevision + 1)
    requires 1 <= s.prevSnapshot.lastRevision && s.prevSnapshot.lastRevision + 2 <= s.etcdRevision
    ensures Handle(c, s, WatchResponse(1, false, t1, false)) == Turn(t, Running) && Inv(c, t)
    ensures t.events != [] && t.lastEventRevision == s.prevSnapshot.lastRevision + 1
    ensures t.store == s.store && t.prevSnapshot == s.prevSnapshot
  {
    hide StoreOk, PrevOk, RecentOk, ValidHistory, Between;
    t := Delivered(c, s, 1);
    BetweenEnds(c.history, s.watch.value, s.watch.value);
    assert Received(c, s, 1) == Between(c.history, s.watch.value, s.watch.value);
    hide Received, StoreInv, BufferInv;
    DeliveredKeeps(c, s, 1);
  }

  lemma LaggingDelta(c: Config, s: State, t2: int) returns (delta: Snapshot, t: State)
    requires Inv(c, s) && c.deltasEnabled && s.events != []
    ensures Handle(c, s, DeltaSnapshot(t2, false)) == Turn(t, Running) && StoreInv(c, t)
    ensures delta.IsDelta() && delta.lastRevision == s.lastEventRevision == t.prevSnapshot.lastRevision
    ensures delta in t.store && t.store.Keys == s.store.Keys + {delta}
    ensures forall f :: f in s.store && f.IsFull() ==> t.store[f] == s.store[f]
  {
    hide StoreOk, PrevOk, RecentOk, ValidHistory, Between;
    DeltaKeeps(c, s, t2, false);
    delta := NextDelta(c, s, t2);
    t := TakenDelta(c, s, t2, false).state;
  }

  lemma ThreeInputs(c: Config, s: State, inputs: seq<Input>, first: State, second: State, third: State)
    requires |inputs| == 3
    requires Handle(c, s, inputs[0]) == Turn(first, Running)
    requires Handle(c, first, inputs[1]) == Turn(second, Running)
    requires Handle(c, second, inputs[2]) == Turn(third, Running)
    ensures HandleAll(c, s, inputs) == Turn(third, Running)
  {
    hide Handle;
    assert inputs[..2][..1] == inputs[..1] && inputs[..1][..0] == [];
    assert HandleAll(c, s, inputs[..1]) == Turn(first, Running);
    assert HandleAll(c, s, inputs[..2]) == Turn(second, Running);
  }
}

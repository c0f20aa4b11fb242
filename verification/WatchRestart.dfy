/** Collecting again after a watch error (pkg/snapshot/snapshotter/snapshotter.go, as the server
    in pkg/server/backuprestoreserver.go does on the same snapshotter). */
module WatchRestart {
  import opened Etcd
  import opened Restorer
  import opened RestoreTheorems
  import opened SnapTypes
  import opened Selection
  import opened Listings
  import opened BackupStore
  import opened Snapshotter
  import opened RoundTrip
  import opened StaleBuffer

  /** The last revision that the watch has delivered. */
  function LastDelivered(s: State): int {
    if s.watch.Some? then s.watch.value - 1 else 0
  }

  /** No delta is cut for the memory limit. */
  ghost predicate WithinLimit(inputs: seq<Input>) {
    forall i :: 0 <= i < |inputs| && inputs[i].WatchResponse? ==> !inputs[i].overLimit
  }

  /** What collecting appends to the buffer, whatever was in it. */
  ghost predicate Appended(c: Config, s: State, t: State) {
    && s.watch.Some? && t.watch.Some?
    && s.watch.value <= t.watch.value <= t.etcdRevision + 1
    && s.etcdRevision <= t.etcdRevision <= LastRevisionOf(c.history)
    && t.prevSnapshot == s.prevSnapshot && t.prevDeltaSnapshots == s.prevDeltaSnapshots
    && var received := Between(c.history, s.watch.value, t.watch.value - 1);
       && t.events == s.events + received
       && (received != [] ==> t.lastEventRevision == t.watch.value - 1)
  }

  lemma ReceivedEnds(c: Config, s: State, count: nat)
    requires ValidHistory(c.history) && s.watch.Some? && 1 <= s.watch.value <= s.etcdRevision + 1
    requires s.etcdRevision <= LastRevisionOf(c.history)
    ensures var received := Received(c, s, count);
            received != [] ==> received[|received| - 1].modRevision == Delivered(c, s, count).watch.value - 1
    ensures Received(c, s, count) == [] ==> Delivered(c, s, count).watch == s.watch || s.watch.value == 1
  {
    var upTo := Min(s.watch.value + count, s.etcdRevision + 1) - 1;
    if s.watch.value <= upTo && 2 <= upTo { BetweenEnds(c.history, s.watch.value, upTo); }
  }

  /** A watch response goes on top of what was appended. */
  lemma DeliveredAppends(c: Config, s: State, m: State, count: nat)
    requires ValidHistory(c.history) && Appended(c, s, m) && 1 <= s.watch.value
    ensures Appended(c, s, Delivered(c, m, count))
  {
    hide ValidHistory, Between;
    var next, upTo := m.watch.value, Min(m.watch.value + count, m.etcdRevision + 1) - 1;
    BetweenConcat(c.history, s.watch.value, next - 1, upTo);
    ReceivedEnds(c, m, count);
    var before, received := Between(c.history, s.watch.value, next - 1), Received(c, m, count);
    assert next == 1 ==> before == [] by { NothingBelow(c.history, s.watch.value, next - 1); }
    assert (s.events + before) + received == s.events + (before + received);
  }

  lemma NothingBelow(h: History, lo: int, hi: int)
    ensures hi < lo ==> Between(h, lo, hi) == []
  {
  }

  lemma TurnAppends(c: Config, s: State, m: State, target: int, input: Input)
    requires ValidHistory(c.history) && Appended(c, s, m) && 1 <= s.watch.value
    requires input.WatchResponse? ==> !input.overLimit
    ensures var t := CollectTurn(c, m, target, input);
            && (t.outcome.Running? || t.outcome.CaughtUp? ==> Appended(c, s, t.state))
            && (t.outcome.CaughtUp? ==> LastDelivered(t.state) >= target && LastDelivered(t.state) >= 2)
  {
    hide ValidHistory, Between;
    if input.WatchResponse? {
      DeliveredAppends(c, s, m, input.count);
      ReceivedEnds(c, m, input.count);
      if Received(c, m, input.count) != [] { SomethingReceived(c, m, input.count); }
      hide Delivered, Received, Appended;
    }
  }

  /** Meanwhile the store stays sound, whatever is in the buffer. */
  lemma TurnKeepsStore(c: Config, s: State, target: int, input: Input)
    requires StoreInv(c, s) && (input.WatchResponse? ==> !input.overLimit)
    ensures var t := CollectTurn(c, s, target, input); StoreInv(c, t.state) && t.state.prevSnapshot == s.prevSnapshot
  {
    hide StoreOk, PrevOk, RecentOk, ValidHistory, Between, Superseded;
    if !input.FullSnapshot? && !input.DeltaSnapshot? && !input.WatchResponse? {
      OthersKeepStore(c, s, input);
    }
  }

  lemma {:induction false} CollectKeepsStore(c: Config, s: State, target: int, inputs: seq<Input>)
    requires StoreInv(c, s) && WithinLimit(inputs)
    ensures StoreInv(c, CollectAll(c, s, target, inputs).state)
  {
    hide StoreInv, CollectTurn;
    if inputs != [] {
      var init := inputs[..|inputs| - 1];
      CollectKeepsStore(c, s, target, init);
      TurnKeepsStore(c, CollectAll(c, s, target, init).state, target, inputs[|inputs| - 1]);
    }
  }

  lemma SomethingReceived(c: Config, s: State, count: nat)
    requires ValidHistory(c.history) && s.watch.Some? && Received(c, s, count) != []
    ensures var received := Received(c, s, count); received[|received| - 1].modRevision >= 2
  {
    BetweenRevisions(c.history, s.watch.value, Min(s.watch.value + count, s.etcdRevision + 1) - 1);
    hide Between;
    var received := Received(c, s, count);
    assert received[|received| - 1] in received;
  }

  lemma {:induction false} CollectAppends(c: Config, s: State, target: int, inputs: seq<Input>)
    requires ValidHistory(c.history) && s.watch.Some? && 1 <= s.watch.value <= s.etcdRevision + 1
    requires s.etcdRevision <= LastRevisionOf(c.history) && WithinLimit(inputs)
    ensures var t := CollectAll(c, s, target, inputs);
            && (t.outcome.Running? || t.outcome.CaughtUp? ==> Appended(c, s, t.state))
            && (t.outcome.CaughtUp? ==> LastDelivered(t.state) >= target && LastDelivered(t.state) >= 2)
  {
    hide ValidHistory, CollectTurn;
    if inputs == [] {
      assert Between(c.history, s.watch.value, s.watch.value - 1) == [];
    } else {
      hide Appended;
      var init := inputs[..|inputs| - 1];
      CollectAppends(c, s, target, init);
      var before := CollectAll(c, s, target, init);
      if before.outcome.Running? { TurnAppends(c, s, before.state, target, inputs[|inputs| - 1]); }
    }
  }

  /** Whatever is cut first after collecting has started again, and for whatever reason, holds the
      revisions `prev+1..k` that were in the buffer twice. It holds exactly the revisions of its
      name if and only if there were none. */
  lemma CutIsStale(c: Config, s: State, m: State, now: int)
    requires Inv(c, s) && s.watch.Some? && Appended(c, Opened(s), m)
    requires s.prevSnapshot.lastRevision < LastDelivered(m) && 2 <= LastDelivered(m)
    ensures var lo, k, n := s.prevSnapshot.lastRevision + 1, LastDelivered(s), LastDelivered(m);
            var r := TakenDelta(c, m, now, false);
            && s.events == Between(c.history, lo, k) && k <= s.etcdRevision && n <= LastRevisionOf(c.history)
            && r.ok && r.state.prevSnapshot in r.state.store
            && DeltaOf(r.state.prevSnapshot, r.state.store[r.state.prevSnapshot]) == StaleDelta(c.history, lo, k, n)
            && (ExactSlice(c.history, StaleDelta(c.history, lo, k, n)) <==> s.events == [])
  {
    hide StoreOk, PrevOk, RecentOk, ValidHistory, Between;
    var lo, n := s.prevSnapshot.lastRevision + 1, LastDelivered(m);
    BetweenEnds(c.history, lo, n);
    assert m.events == s.events + Between(c.history, lo, n);
  }

  /** The delta cut after collecting has caught up with etcd. */
  function CutAfter(c: Config, s: State, inputs: seq<Input>, now: int): Result {
    TakenDelta(c, Collect(c, s, inputs).state, now, false)
  }

  /** A watch error changes nothing, so collecting starts on top of what was buffered. */
  lemma RestartAppends(c: Config, s: State, inputs: seq<Input>)
    requires Inv(c, s) && s.watch.Some? && s.prevSnapshot.lastRevision < s.etcdRevision && WithinLimit(inputs)
    ensures Handle(c, s, WatchBreaks) == Turn(s, WatchFailed)
    ensures var t := Collect(c, s, inputs);
            && (t.outcome.Running? || t.outcome.CaughtUp? ==> Appended(c, Opened(s), t.state))
            && (t.outcome.CaughtUp? ==> s.etcdRevision <= LastDelivered(t.state) && 2 <= LastDelivered(t.state))
            && StoreInv(c, t.state)
  {
    hide StoreOk, PrevOk, RecentOk, ValidHistory, CollectAll, Appended, BufferOk;
    CollectAppends(c, Opened(s), s.etcdRevision, inputs);
    CollectKeepsStore(c, Opened(s), s.etcdRevision, inputs);
  }

  /** A watch response that passes the memory limit while collecting cuts such a delta too. */
  lemma LimitCutsStale(c: Config, s: State, inputs: seq<Input>, count: nat, now: int)
    requires Inv(c, s) && s.watch.Some? && s.prevSnapshot.lastRevision < s.etcdRevision && WithinLimit(inputs)
    requires Collect(c, s, inputs).outcome.Running?
    ensures Collect(c, s, inputs).state.watch.Some?
    ensures var before := Collect(c, s, inputs).state;
            var m := Delivered(c, before, count);
            && Handle(c, before, WatchResponse(count, true, now, false)) == TurnOf(TakenDelta(c, m, now, false))
            && Appended(c, Opened(s), m) && StoreInv(c, m)
  {
    hide StoreOk, PrevOk, RecentOk, ValidHistory, Collect, Between;
    RestartAppends(c, s, inputs);
    DeliveredAppends(c, Opened(s), Collect(c, s, inputs).state, count);
  }

  /** The chain selected from the store ends where the last snapshot does, or lies in the base. */
  lemma SelectedEndsAtPrev(c: Config, s: State, list: seq<Snapshot>)
    requires StoreInv(c, s) && IsListing(s.store, list) && LastFull(list) >= 0
    ensures list[LastFull(list)] in s.store && s.store[list[LastFull(list)]].FullData?
    ensures forall d :: d in Tail(list) ==> d in s.store
    ensures var base, deltas := BaseDb(s.store, list), Fetched(s.store, Tail(list));
            && Chain(c.history, base.revision, deltas) && base == StateAt(c.history, base.revision)
            && 1 <= base.revision <= s.etcdRevision
            && (deltas != [] ==> ChainEnd(base.revision, deltas) == s.prevSnapshot.lastRevision)
            && (deltas == [] ==> s.prevSnapshot.lastRevision <= base.revision)
  {
    hide StoreOk, Tail, LastFull, IsListing, KvAt, ValidHistory, RecentOk, Chain;
    SelectedChain(c.history, s.etcdRevision, s.store, list);
    SelectedEnd(c.history, s.etcdRevision, s.store, list);
    TailMembers(s.store, list);
    AroundBase(s.store, list);
    var tail := Tail(list);
    if tail != [] { assert tail[|tail| - 1] in tail; }
  }

  /** Listing a store before and after a delta was added that ends above all others: the base is
      the same, and the delta comes last in the chain, or before the base and then nothing does
      after it. */
  lemma AddedDelta(store: Store, d: Snapshot, content: Content, list: seq<Snapshot>)
    requires IsListing(store[d := content], list) && LastFull(list) >= 0
    requires d !in store && d.IsDelta() && forall e :: e in store && e.IsDelta() ==> e.lastRevision < d.lastRevision
    ensures var prior := Without(list, d);
            && IsListing(store, prior) && LastFull(prior) >= 0 && prior[LastFull(prior)] == list[LastFull(list)]
            && if d in Tail(list) then Tail(list) == Tail(prior) + [d] else Tail(list) == [] == Tail(prior)
    ensures list[LastFull(list)].lastRevision < d.lastRevision ==> d in Tail(list)
  {
    hide Less, LastFull, Tail, Without, Selected;
    var after := store[d := content];
    var prior := Without(list, d);
    WithoutMembers(list, d);
    WithoutDistinct(list, d);
    WithoutSorted(list, d);
    assert IsListing(store, prior);
    hide Sorted, Distinct;
    assert Tail(list) != [] ==> Tail(list)[0] in Tail(list);
    AroundBase(after, list);
    TailMembers(after, list);
    SelectedWithout(after, list, d);
    FullListed(store, prior, list[LastFull(list)]);
    SelectedParts(prior);
    SelectedParts(list);
    BaseParts(prior);
    BaseParts(list);
  }

  lemma BaseParts(list: seq<Snapshot>)
    requires LastFull(list) >= 0
    ensures Base(list) == Some(list[LastFull(list)])
  {
  }

  lemma SelectedWithout(store: Store, list: seq<Snapshot>, d: Snapshot)
    requires IsListing(store, list) && LastFull(list) >= 0 && d in store && d.IsDelta()
    requires forall e :: e in store && e.IsDelta() && e != d ==> e.lastRevision < d.lastRevision
    ensures Selected(list) == if d in Tail(list) then (Base(Without(list, d)), Tail(Without(list, d)) + [d])
                              else Selected(Without(list, d))
  {
    hide LastFull, Tail, Without, Base, Less, Sorted, Distinct, Selected;
    var i :| 0 <= i < |list| && list[i] == d;
    WithoutAt(list, i);
    SplitAt(list, i);
    DeltaAfterBase(list, i);
    if i > LastFull(list) {
      LaterAreChunks(store, list, i);
      SelectedLast(list[..i], d, list[i + 1..]);
    } else {
      SelectedBefore(list, i);
    }
  }

  lemma SelectedLast(a: seq<Snapshot>, d: Snapshot, b: seq<Snapshot>)
    requires d.IsDelta() && forall j :: 0 <= j < |b| ==> b[j].isChunk
    ensures Selected((a + [d]) + b) == (Base(a + b), Tail(a + b) + [d])
  {
    hide Selected, Base, Tail;
    ChunksAfter(a + [d], b);
    ChunksAfter(a, b);
    SelectedSnoc(a, d);
    SelectedParts(a);
    SelectedParts(a + b);
  }

  lemma SelectedBefore(list: seq<Snapshot>, i: nat)
    requires LastFull(list) >= 0 && i < LastFull(list)
    ensures Selected(list[..i] + list[i + 1..]) == Selected(list)
  {
    hide Selected, LastFull;
    FullListedIsBase(list);
    var k := LastFull(list);
    var rest := list[k..];
    assert list == list[..k] + rest;
    assert list[..i] + list[i + 1..] == (list[..i] + list[i + 1..k]) + rest;
    SelectedSuffix(list[..k], rest);
    SelectedSuffix(list[..i] + list[i + 1..k], rest);
  }

  lemma LaterAreChunks(store: Store, list: seq<Snapshot>, i: nat)
    requires IsListing(store, list) && i < |list| && list[i].IsDelta() && LastFull(list) < i
    requires forall e :: e in store && e.IsDelta() && e != list[i] ==> e.lastRevision < list[i].lastRevision
    ensures forall j :: i < j < |list| ==> list[j].isChunk
  {
    var d := list[i];
    assert forall e :: e in store && e.IsDelta() && e != d ==> Less(e, d);
    LastFullIsLast(list);
    hide Less, LastFull;
    forall j | i < j < |list| ensures list[j].isChunk {
      assert list[j] in store && !list[j].IsFull() && list[j] != d;
    }
  }

  lemma DeltaAfterBase(list: seq<Snapshot>, i: nat)
    requires Distinct(list) && i < |list| && list[i].IsDelta() && LastFull(list) >= 0
    ensures i != LastFull(list) && (list[i] in Tail(list) <==> i > LastFull(list))
  {
    hide LastFull, Distinct, Tail;
    FullListedIsBase(list);
    TailHas(list, list[i]);
    var k := LastFull(list);
    if i < k {
      NotAfter(list, i, k);
    } else {
      SuffixHas(list, i, k + 1);
    }
  }

  lemma TailHas(list: seq<Snapshot>, d: Snapshot)
    requires d.IsDelta() && LastFull(list) >= 0
    ensures d in Tail(list) <==> d in list[LastFull(list) + 1..]
  {
    hide LastFull, WithoutChunks;
    WithoutChunksMembers(list[LastFull(list) + 1..]);
  }

  lemma SuffixHas(list: seq<Snapshot>, i: nat, k: nat)
    requires k <= i < |list|
    ensures list[i] in list[k..]
  {
    assert list[k..][i - k] == list[i];
  }

  /** The chain selected from a store after a watch error, collecting again up to the state `m`, and
      the next cut. If the new delta is part of it, it comes last and decides: the chain restores
      if and only if it restored without it, and the stale delta does on top of where that ended.
      Otherwise a full snapshot at or above it is selected alone. */
  lemma AfterWatchError(c: Config, s: State, m: State, now: int, list: seq<Snapshot>)
    requires Inv(c, s) && s.events != [] && 1 <= s.prevSnapshot.lastRevision
    requires s.watch.Some? && Appended(c, Opened(s), m) && StoreInv(c, m)
    requires s.prevSnapshot.lastRevision < LastDelivered(m)
    requires IsListing(TakenDelta(c, m, now, false).state.store, list) && LastFull(list) >= 0
    ensures var lo, k, n := s.prevSnapshot.lastRevision + 1, LastDelivered(s), LastDelivered(m);
            var cut := TakenDelta(c, m, now, false).state;
            && cut.store[list[LastFull(list)]].FullData?
            && var base, tail, r := BaseDb(cut.store, list), Tail(list), RestoreLatest(cut.store, list);
               if cut.prevSnapshot in tail then
                 && tail[|tail| - 1] == cut.prevSnapshot
                 && (r.Restored? <==>
                       && (|tail| == 1 || base.revision <= tail[0].lastRevision)
                       && StaleOk(c.history, lo, k, n, if |tail| == 1 then base.revision else lo - 1))
                 && (r.Restored? ==> r.db == StateAt(c.history, n))
               else r == Restored(base) && base == StateAt(c.history, base.revision)
    ensures list[LastFull(list)].lastRevision < LastDelivered(m) ==>
              TakenDelta(c, m, now, false).state.prevSnapshot in Tail(list)
  {
    hide StoreOk, RecentOk, PrevOk, ValidHistory, Tail, LastFull, Sorted, Distinct, StaleOk, Restore, StateAt, Chain,
         StaleDelta, Appended, Without, TakenDelta;
    var lo, k, n := s.prevSnapshot.lastRevision + 1, LastDelivered(s), LastDelivered(m);
    BufferNotEmpty(c, s);
    CutIsStale(c, s, m, now);
    CutAdds(c, s, m, now);
    var cut := TakenDelta(c, m, now, false).state;
    var d := cut.prevSnapshot;
    AddedDelta(m.store, d, cut.store[d], list);
    var prior := Without(list, d);
    SelectedEndsAtPrev(c, m, prior);
    var base, deltas := BaseDb(m.store, prior), Fetched(m.store, Tail(prior));
    FullListedIsBase(list);
    if d in Tail(list) {
      FetchedSnoc(m.store, Tail(prior), d, cut.store[d]);
      StaleChain(c.history, base.revision, deltas, lo, k, n);
    } else {
      assert Fetched(cut.store, Tail(list)) == [];
      RestoreNothing(base);
    }
  }

  lemma FetchedSnoc(store: Store, tail: seq<Snapshot>, d: Snapshot, content: Content)
    requires d !in store && forall s :: s in tail ==> s in store
    ensures Fetched(store[d := content], tail + [d]) == Fetched(store, tail) + [DeltaOf(d, content)]
  {
  }

  lemma RestoreNothing(base: Db)
    ensures Restore(base, []) == Restored(base)
  {
  }

  /** The cut adds one delta, above all others. */
  lemma CutAdds(c: Config, s: State, m: State, now: int)
    requires Inv(c, s) && s.watch.Some? && Appended(c, Opened(s), m) && StoreInv(c, m)
    requires s.prevSnapshot.lastRevision < LastDelivered(m) && 2 <= LastDelivered(m)
    ensures var cut := TakenDelta(c, m, now, false).state;
            var d := cut.prevSnapshot;
            && d.IsDelta() && d.lastRevision == LastDelivered(m) && d !in m.store && d in cut.store
            && cut.store == m.store[d := cut.store[d]] && m.prevSnapshot == s.prevSnapshot
            && forall e :: e in m.store && e.IsDelta() ==> e.lastRevision < d.lastRevision
  {
    hide StoreOk, RecentOk, ValidHistory, Between, Reached;
    BetweenEnds(c.history, s.prevSnapshot.lastRevision + 1, LastDelivered(m));
  }

  lemma BufferNotEmpty(c: Config, s: State)
    requires Inv(c, s) && s.events != []
    ensures s.watch.Some? && s.prevSnapshot.lastRevision < LastDelivered(s) <= s.etcdRevision
  {
  }

  // ---------------------------------------------------------------------------
  // A run that gets there
  // ---------------------------------------------------------------------------

  const EXAMPLE_HISTORY: History := [[Event(Put, "a", "1", 2)], [Event(Put, "b", "1", 3)]]
  const EXAMPLE_CONFIG := Config(EXAMPLE_HISTORY, "", true)
  const EXAMPLE_INPUTS := [FullSnapshot(false, 0, 0, NoFault), EtcdAdvances(2), WatchResponse(1, false, 0, false),
                           WatchBreaks]

  /** The state in which the watch breaks: one revision is buffered. */
  function BrokenState(): State {
    var full := NewSnapshot(Full, 0, 1, 0, "", false);
    State(3, map[full := FullData(StateAt(EXAMPLE_HISTORY, 1))], full, Some(full), [], EventsAt(EXAMPLE_HISTORY, 2), 2,
          Some(3))
  }

  lemma ExampleHistory()
    ensures var h := EXAMPLE_HISTORY;
            && ValidHistory(h) && EventsAt(h, 2) == [Event(Put, "a", "1", 2)] && Between(h, 2, 2) == EventsAt(h, 2)
            && Between(h, 2, 3) == EventsAt(h, 2) + EventsAt(h, 3) && EventsAt(h, 3) == [Event(Put, "b", "1", 3)]
            && !Harmless(h, 2, 2)
  {
    var h := EXAMPLE_HISTORY;
    assert ValidAt(h, 2) && ValidAt(h, 3);
    assert Between(h, 2, 1) == [];
    assert EventsAt(h, 2)[0].kind.Put?;
  }

  function FreshState(): State {
    StartState(1, map[], None, [])
  }

  function SnapshotState(etcdRevision: int): State {
    var full := NewSnapshot(Full, 0, 1, 0, "", false);
    State(etcdRevision, map[full := FullData(StateAt(EXAMPLE_HISTORY, 1))], full, Some(full), [], [], -1, Some(2))
  }

  lemma ExampleFull()
    ensures Handle(EXAMPLE_CONFIG, FreshState(), EXAMPLE_INPUTS[0]) == Turn(SnapshotState(1), Running)
    ensures Handle(EXAMPLE_CONFIG, SnapshotState(1), EXAMPLE_INPUTS[1]) == Turn(SnapshotState(3), Running)
  {
    hide StateAt;
  }

  lemma ExampleWatch()
    ensures Handle(EXAMPLE_CONFIG, SnapshotState(3), EXAMPLE_INPUTS[2]) == Turn(BrokenState(), Running)
    ensures Handle(EXAMPLE_CONFIG, BrokenState(), EXAMPLE_INPUTS[3]) == Turn(BrokenState(), WatchFailed)
  {
    hide StateAt;
    ExampleHistory();
    hide Between, EventsAt;
    assert Received(EXAMPLE_CONFIG, SnapshotState(3), 1) == [Event(Put, "a", "1", 2)];
    assert [] + [Event(Put, "a", "1", 2)] == [Event(Put, "a", "1", 2)];
  }

  lemma ExampleRun()
    ensures HandleAll(EXAMPLE_CONFIG, FreshState(), EXAMPLE_INPUTS) == Turn(BrokenState(), WatchFailed)
    ensures Inv(EXAMPLE_CONFIG, BrokenState())
  {
    hide Handle, BrokenState, SnapshotState;
    var c, inputs := EXAMPLE_CONFIG, EXAMPLE_INPUTS;
    ExampleFull();
    ExampleWatch();
    FreshIsRight();
    hide FreshState, Inv;
    ThreeInputs(c, FreshState(), inputs[..3], SnapshotState(1), SnapshotState(3), BrokenState());
    HandleAllKeeps(c, FreshState(), inputs[..3]);
    InvOf(c, BrokenState());
  }

  lemma InvOf(c: Config, s: State)
    requires StoreInv(c, s) && BufferInv(c, s)
    ensures Inv(c, s)
  {
  }

  lemma FreshIsRight()
    ensures Inv(EXAMPLE_CONFIG, FreshState())
  {
    ExampleHistory();
    hide ValidHistory;
    StartsEmpty(1, map[]);
  }

  /** The state of the store when the example has collected again and saved a delta. */
  function ExampleCut(): State {
    var broken := HandleAll(EXAMPLE_CONFIG, FreshState(), EXAMPLE_INPUTS).state;
    CutAfter(EXAMPLE_CONFIG, broken, [WatchResponse(2, false, 0, false)], 0).state
  }

  /** A full snapshot, two writes, a watch response with the first of them, and the watch breaks.
      Collecting catches up with etcd, and the store with the delta saved then cannot be restored,
      however it is listed. */
  lemma StaleBufferBreaksRestore(list: seq<Snapshot>)
    requires IsListing(ExampleCut().store, list)
    ensures HandleAll(EXAMPLE_CONFIG, FreshState(), EXAMPLE_INPUTS).outcome.WatchFailed?
    ensures LastFull(list) >= 0 && ExampleCut().store[list[LastFull(list)]].FullData?
    ensures RestoreLatest(ExampleCut().store, list).FailedAt?
  {
    hide KvAt, ValidHistory, HandleAll, Harmless, Restore, Between, Collect, TakenDelta, EventsAt, Handle, LastFull,
         Tail, RestoreLatest, StoreInv, BufferInv, Appended, Sorted, Distinct;
    var c, s, again := EXAMPLE_CONFIG, BrokenState(), [WatchResponse(2, false, 0, false)];
    ExampleHistory();
    ExampleRun();
    ExampleCollect();
    RestartAppends(c, s, again);
    var m := Collect(c, s, again).state;
    CutAdds(c, s, m, 0);
    var full := NewSnapshot(Full, 0, 1, 0, "", false);
    FullListed(ExampleCut().store, list, full);
    FullListedIsBase(list);
    AfterWatchError(c, s, m, 0, list);
    TailMembers(ExampleCut().store, list);
    var tail := Tail(list);
    assert tail[0] in tail;
    OnlyOne(tail, ExampleCut().prevSnapshot);
  }

  lemma OnlyOne(tail: seq<Snapshot>, d: Snapshot)
    requires Distinct(tail) && d in tail && forall e :: e in tail ==> e == d
    ensures |tail| == 1
  {
    var last := |tail| - 1;
    assert last > 0 ==> tail[0] != tail[last];
    hide Distinct;
    assert tail[0] in tail && tail[last] in tail;
  }

  lemma ExampleCollect()
    ensures var t := Collect(EXAMPLE_CONFIG, BrokenState(), [WatchResponse(2, false, 0, false)]);
            t.outcome.CaughtUp? && t.state.watch == Some(4) && t.state.store == BrokenState().store
  {
    hide StateAt;
    ExampleHistory();
    hide Between, EventsAt;
    var start, again := Opened(BrokenState()), [WatchResponse(2, false, 0, false)];
    assert again[..0] == [];
    assert CollectAll(EXAMPLE_CONFIG, start, 3, again[..0]) == Turn(start, Running);
    var received := Received(EXAMPLE_CONFIG, start, 2);
    assert received == [Event(Put, "a", "1", 2), Event(Put, "b", "1", 3)];
    assert Reaches(received, 3);
  }
}

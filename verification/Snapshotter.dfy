/** The snapshotter: full snapshots, buffered watch events and the deltas cut from them
    (pkg/snapshot/snapshotter/snapshotter.go). */
module Snapshotter {
  import opened Etcd
  import opened Restorer
  import opened RestoreTheorems
  import opened SnapTypes
  import opened Selection
  import opened BackupStore

  /** Where a full snapshot may fail: before it is saved, on saving, or opening the next watch. */
  datatype FullFault = NoFault | BeforeSave | OnSave | OnWatch

  /** One thing that happens to the snapshotter, or to its store: the garbage collector and the
      compactor work on it as well. Counts are numbers of revisions, cut off at what the cluster
      has written; `now` is the clock. */
  datatype Input =
    | EtcdAdvances(count: nat)
    | FullSnapshot(isFinal: bool, lag: nat, now: int, fault: FullFault)
    | DeltaSnapshot(now: int, fails: bool)
    | WatchResponse(count: nat, overLimit: bool, now: int, fails: bool)
    | WatchBreaks
    | Stop
    | GarbageDeleted(snapshot: Snapshot)
    | CompactedSaved(revision: int, now: int, suffix: string, isFinal: bool)

  /** How a run stands: still going, stopped by request, failed while taking a snapshot, failed
      on the watch, or, when collecting, caught up with etcd. */
  datatype Outcome = Running | Stopped | SnapshotFailed | WatchFailed | CaughtUp

  datatype Config = Config(
    history: History,
    suffix: string,
    deltasEnabled: bool)           // the delta snapshot period is at least a second

  datatype State = State(
    etcdRevision: int,             // the revision the live etcd has reached
    store: Store,
    prevSnapshot: Snapshot,
    prevFullSnapshot: Option<Snapshot>,
    prevDeltaSnapshots: seq<Snapshot>,
    events: seq<Event>,
    lastEventRevision: int,
    watch: Option<int>)            // the next revision the watch delivers, if there is one

  datatype Result = Result(state: State, ok: bool)

  datatype Turn = Turn(state: State, outcome: Outcome)

  // ---------------------------------------------------------------------------
  // Specification
  // ---------------------------------------------------------------------------

  function Min(a: int, b: int): int {
    if a <= b then a else b
  }

  function NewSnapshot(kind: Kind, startRevision: int, lastRevision: int, now: int, suffix: string,
                       isFinal: bool): Snapshot
  {
    Snapshot(kind, startRevision, lastRevision, now, suffix, isFinal, false, None)
  }

  function Cleared(s: State): State {
    s.(events := [], lastEventRevision := -1)
  }

  function Opened(s: State): State {
    s.(watch := Some(s.prevSnapshot.lastRevision + 1))
  }

  /** A final snapshot of an unchanged etcd is not taken again. */
  predicate AlreadyFinal(s: State, isFinal: bool) {
    isFinal && s.prevSnapshot.isFinal && s.prevSnapshot.kind.Full? && s.prevSnapshot.lastRevision == s.etcdRevision
  }

  function Reopened(c: Config, s: State, fault: FullFault): Result {
    if !c.deltasEnabled then Result(s, true)
    else if fault.OnWatch? then Result(s, false)
    else Result(Opened(s), true)
  }

  /** The revision is read first; etcd may write `lag` more before the snapshot is taken. */
  function TakenFull(c: Config, s: State, isFinal: bool, lag: nat, now: int, fault: FullFault): Result {
    var closed := Cleared(s).(watch := None);
    if fault.BeforeSave? then Result(closed, false)
    else if AlreadyFinal(s, isFinal) then Reopened(c, closed, fault)
    else
      var taken := Min(s.etcdRevision + lag, LastRevisionOf(c.history));
      if fault.OnSave? then Result(closed.(etcdRevision := taken), false)
      else Reopened(c, FullAdded(c, closed, NewSnapshot(Full, 0, s.etcdRevision, now, c.suffix, isFinal), taken), fault)
  }

  function FullAdded(c: Config, s: State, full: Snapshot, taken: int): State {
    s.(etcdRevision := taken, store := s.store[full := FullData(StateAt(c.history, taken))],
       prevSnapshot := full, prevFullSnapshot := Some(full), prevDeltaSnapshots := [])
  }

  /** The delta that the buffer would be saved as. */
  function NextDelta(c: Config, s: State, now: int): Snapshot {
    NewSnapshot(Incr, s.prevSnapshot.lastRevision + 1, s.lastEventRevision, now, c.suffix, false)
  }

  function TakenDelta(c: Config, s: State, now: int, fails: bool): Result {
    if s.events == [] then Result(Cleared(s), true)
    else if fails then Result(Cleared(s), false)
    else
      var delta := NextDelta(c, s, now);
      Result(Cleared(s).(store := s.store[delta := DeltaData(s.events)], prevSnapshot := delta,
                         prevDeltaSnapshots := s.prevDeltaSnapshots + [delta]), true)
  }

  function Buffered(s: State, received: seq<Event>): State {
    s.(events := s.events + received,
       lastEventRevision := if received == [] then s.lastEventRevision else received[|received| - 1].modRevision)
  }

  /** The watch delivers the events of up to `count` more revisions. */
  function Received(c: Config, s: State, count: nat): seq<Event>
    requires s.watch.Some?
  {
    Between(c.history, s.watch.value, Min(s.watch.value + count, s.etcdRevision + 1) - 1)
  }

  function Delivered(c: Config, s: State, count: nat): State
    requires s.watch.Some?
  {
    Buffered(s, Received(c, s, count)).(watch := Some(Min(s.watch.value + count, s.etcdRevision + 1)))
  }

  function Handle(c: Config, s: State, input: Input): Turn {
    match input
    case EtcdAdvances(count) =>
      Turn(s.(etcdRevision := Min(s.etcdRevision + count, LastRevisionOf(c.history))), Running)
    case FullSnapshot(isFinal, lag, now, fault) => TurnOf(TakenFull(c, s, isFinal, lag, now, fault))
    case DeltaSnapshot(now, fails) => if c.deltasEnabled then TurnOf(TakenDelta(c, s, now, fails)) else Turn(s, Running)
    case WatchResponse(count, overLimit, now, fails) =>
      if s.watch.None? then Turn(s, Running)
      else if overLimit then TurnOf(TakenDelta(c, Delivered(c, s, count), now, fails))
      else Turn(Delivered(c, s, count), Running)
    case WatchBreaks => Turn(s, if s.watch.Some? then WatchFailed else Running)
    case Stop => Turn(Cleared(s), Stopped)
    case GarbageDeleted(x) =>
      Turn(if Superseded(s.store, x) then s.(store := s.store - {x}) else s, Running)
    case CompactedSaved(revision, now, suffix, isFinal) =>
      Turn(if 1 <= revision <= s.etcdRevision then Compacted(c, s, revision, now, suffix, isFinal) else s, Running)
  }

  /** A compaction saves the etcd of the revision it has restored under that revision. */
  function Compacted(c: Config, s: State, revision: int, now: int, suffix: string, isFinal: bool): State {
    var full := NewSnapshot(Full, 0, revision, now, suffix, isFinal);
    s.(store := s.store[full := FullData(StateAt(c.history, revision))])
  }

  function TurnOf(r: Result): Turn {
    Turn(r.state, if r.ok then Running else SnapshotFailed)
  }

  /** A run of the event handler up to its first exit. */
  function HandleAll(c: Config, s: State, inputs: seq<Input>): Turn {
    if inputs == [] then Turn(s, Running)
    else
      var before := HandleAll(c, s, inputs[..|inputs| - 1]);
      if before.outcome.Running? then Handle(c, before.state, inputs[|inputs| - 1]) else before
  }

  /** Collecting until the events have reached the revision `target`. */
  function CollectTurn(c: Config, s: State, target: int, input: Input): Turn {
    if input.FullSnapshot? || input.DeltaSnapshot? then Turn(s, Running)
    else
      var t := Handle(c, s, input);
      if input.Stop? then Turn(t.state.(watch := None), Stopped)
      else if t.outcome.Running? && input.WatchResponse? && s.watch.Some?
              && Reaches(Received(c, s, input.count), target)
      then Turn(t.state, CaughtUp)
      else t
  }

  predicate Reaches(received: seq<Event>, target: int) {
    received != [] && received[|received| - 1].modRevision >= target
  }

  function CollectAll(c: Config, s: State, target: int, inputs: seq<Input>): Turn {
    if inputs == [] then Turn(s, Running)
    else
      var before := CollectAll(c, s, target, inputs[..|inputs| - 1]);
      if before.outcome.Running? then CollectTurn(c, before.state, target, inputs[|inputs| - 1]) else before
  }

  /** Opens a watch after the last snapshot, on top of whatever is in the buffer. */
  function Collect(c: Config, s: State, inputs: seq<Input>): Turn {
    if s.prevSnapshot.lastRevision == s.etcdRevision then Turn(Opened(s), CaughtUp)
    else CollectAll(c, Opened(s), s.etcdRevision, inputs)
  }

  // ---------------------------------------------------------------------------
  // The chain invariant
  // ---------------------------------------------------------------------------

  /** `prev`, the end of the last snapshot, is reached and lies at or above every delta. */
  ghost predicate PrevOk(now: int, store: Store, prev: int) {
    && 0 <= prev <= now
    && Reached(store, prev)
    && forall d :: d in store && d.IsDelta() ==> d.lastRevision <= prev
  }

  /** The snapshot is in the store, or has been superseded by a full one. */
  ghost predicate Remembered(store: Store, s: Snapshot) {
    s in store || exists f :: f in store && f.IsFull() && s.lastRevision <= f.lastRevision
  }

  /** The snapshots since the latest full one are in the store and follow each other without gap
      or overlap. The first may straddle the label of the full one, when that is a compacted one. */
  ghost predicate RecentOk(store: Store, prevSnapshot: Snapshot, prevFull: Option<Snapshot>, deltas: seq<Snapshot>) {
    && (prevFull.Some? ==> prevFull.value.IsFull() && Remembered(store, prevFull.value))
    && (forall i :: 0 <= i < |deltas| ==>
          deltas[i].IsDelta() && deltas[i].startRevision <= deltas[i].lastRevision && Remembered(store, deltas[i]))
    && (forall i, j :: 0 <= i < j < |deltas| && j == i + 1 ==> deltas[j].startRevision == deltas[i].lastRevision + 1)
    && (deltas != [] ==> prevSnapshot == deltas[|deltas| - 1])
    && (deltas != [] && prevFull.Some? ==> deltas[0].startRevision <= prevFull.value.lastRevision + 1)
    && (deltas == [] ==> if prevFull.Some? then prevSnapshot == prevFull.value else prevSnapshot.lastRevision == 0)
  }

  lemma RecentGrows(store: Store, after: Store, prev: Snapshot, full: Option<Snapshot>, deltas: seq<Snapshot>)
    requires RecentOk(store, prev, full, deltas) && Covered(store, after)
    ensures RecentOk(after, prev, full, deltas)
  {
    forall s | Remembered(store, s) && !s.isChunk ensures Remembered(after, s) {
      if s !in after && s !in store {
        var f :| f in store && f.IsFull() && s.lastRevision <= f.lastRevision;
        assert Remembered(after, f);
      }
    }
  }

  /** The buffer holds exactly the revisions from the last snapshot up to where the watch is. */
  ghost predicate BufferOk(h: History, now: int, prev: int, events: seq<Event>, lastEventRevision: int,
                           watch: Option<int>)
  {
    match watch
    case None => events == []
    case Some(next) =>
      && prev + 1 <= next <= now + 1
      && events == Between(h, prev + 1, next - 1)
      && (events != [] ==> lastEventRevision == next - 1)
  }

  /** A cluster, and a store whose objects are sound. */
  ghost predicate Sound(c: Config, s: State) {
    && ValidHistory(c.history)
    && 1 <= s.etcdRevision <= LastRevisionOf(c.history)
    && StoreOk(c.history, s.etcdRevision, s.store)
    && 0 <= s.prevSnapshot.lastRevision <= s.etcdRevision
  }

  ghost predicate StoreInv(c: Config, s: State) {
    && Sound(c, s)
    && PrevOk(s.etcdRevision, s.store, s.prevSnapshot.lastRevision)
    && RecentOk(s.store, s.prevSnapshot, s.prevFullSnapshot, s.prevDeltaSnapshots)
  }

  ghost predicate BufferInv(c: Config, s: State) {
    BufferOk(c.history, s.etcdRevision, s.prevSnapshot.lastRevision, s.events, s.lastEventRevision, s.watch)
  }

  ghost predicate Inv(c: Config, s: State) {
    StoreInv(c, s) && BufferInv(c, s)
  }

  /** Every snapshot stays, and only a full one can be replaced, by one taken under the same name. */
  ghost predicate Preserved(before: Store, after: Store) {
    forall s :: s in before ==> s in after && (s.IsDelta() ==> after[s] == before[s])
  }

  /** Every snapshot stays but for those that the garbage collector deletes. */
  ghost predicate Kept(before: Store, after: Store, inputs: seq<Input>) {
    forall s :: s in before ==>
      (s in after && (s.IsDelta() ==> after[s] == before[s])) || GarbageDeleted(s) in inputs
  }

  /** What is no longer there is superseded by a full snapshot. */
  ghost predicate Covered(before: Store, after: Store) {
    forall s :: s in before && !s.isChunk ==> Remembered(after, s)
  }

  /** The snapshotter itself loses nothing, and neither etcd nor what is backed up goes back. */
  ghost predicate Growth(s: State, t: State) {
    && s.etcdRevision <= t.etcdRevision
    && s.prevSnapshot.lastRevision <= t.prevSnapshot.lastRevision
    && Preserved(s.store, t.store)
  }

  /** The same with a garbage collector at work. */
  ghost predicate Progress(s: State, t: State, inputs: seq<Input>) {
    && s.etcdRevision <= t.etcdRevision
    && s.prevSnapshot.lastRevision <= t.prevSnapshot.lastRevision
    && Kept(s.store, t.store, inputs) && Covered(s.store, t.store)
  }

  lemma GrowthIsProgress(s: State, t: State, inputs: seq<Input>)
    requires Growth(s, t)
    ensures Progress(s, t, inputs)
  {
    hide Kept, Covered;
    PreservedKeeps(s.store, t.store, inputs);
  }

  lemma ProgressTransitive(s: State, m: State, t: State, first: seq<Input>, second: seq<Input>)
    requires Progress(s, m, first) && Progress(m, t, second)
    ensures Progress(s, t, first + second)
  {
    hide Kept, Covered;
    KeptTransitive(s.store, m.store, t.store, first, second);
    CoveredTransitive(s.store, m.store, t.store);
  }

  /** An open watch stays open and does not go back. */
  ghost predicate WatchKept(c: Config, s: State, t: State) {
    && (s.watch.Some? ==> if t.watch.Some? then s.watch.value <= t.watch.value else !c.deltasEnabled)
    && (s.watch.None? && !c.deltasEnabled ==> t.watch.None?)
  }

  lemma PreservedKeeps(before: Store, after: Store, inputs: seq<Input>)
    requires Preserved(before, after)
    ensures Kept(before, after, inputs) && Covered(before, after)
  {
  }

  lemma KeptTransitive(a: Store, b: Store, c: Store, first: seq<Input>, second: seq<Input>)
    requires Kept(a, b, first) && Kept(b, c, second)
    ensures Kept(a, c, first + second)
  {
  }

  lemma CoveredTransitive(a: Store, b: Store, c: Store)
    requires Covered(a, b) && Covered(b, c)
    ensures Covered(a, c)
  {
    forall s | s in a && !s.isChunk ensures Remembered(c, s) {
      if s !in b {
        var f :| f in b && f.IsFull() && s.lastRevision <= f.lastRevision;
        assert Remembered(c, f);
      }
    }
  }

  lemma AdvanceOk(h: History, now: int, later: int, store: Store, prev: int)
    requires StoreOk(h, now, store) && PrevOk(now, store, prev) && now <= later <= LastRevisionOf(h)
    ensures StoreOk(h, later, store) && PrevOk(later, store, prev)
  {
    hide Reached, ExactSlice;
  }

  lemma FullSaved(h: History, now: int, taken: int, store: Store, s: Snapshot, content: Content)
    requires StoreOk(h, now, store) && 1 <= now <= taken <= LastRevisionOf(h)
    requires s.IsFull() && s.lastRevision == now && content == FullData(StateAt(h, taken))
    ensures StoreOk(h, taken, store[s := content]) && PrevOk(taken, store[s := content], now)
    ensures RecentOk(store[s := content], s, Some(s), []) && Preserved(store, store[s := content])
  {
    forall d | d in store && d.IsDelta() ensures d.lastRevision <= now {
      DeltaIsOk(h, now, store, d);
    }
    hide StoreOk, Reached, StateAt;
    SaveFull(h, now, taken, store, s, content);
  }

  /** A full snapshot that is saved makes the chain right, whatever it was before. */
  lemma FullEstablishes(c: Config, s: State, now: int, isFinal: bool, lag: nat)
    requires Sound(c, s)
    ensures var closed := Cleared(s).(watch := None);
            var full := NewSnapshot(Full, 0, s.etcdRevision, now, c.suffix, isFinal);
            var taken := Min(s.etcdRevision + lag, LastRevisionOf(c.history));
            var t := FullAdded(c, closed, full, taken);
            && StoreInv(c, t) && BufferInv(c, t) && Growth(s, t) && t.prevSnapshot.lastRevision == s.etcdRevision
  {
    hide StoreOk, PrevOk, RecentOk, Preserved, ValidHistory, StateAt;
    var full := NewSnapshot(Full, 0, s.etcdRevision, now, c.suffix, isFinal);
    var taken := Min(s.etcdRevision + lag, LastRevisionOf(c.history));
    FullSaved(c.history, s.etcdRevision, taken, s.store, full, FullData(StateAt(c.history, taken)));
  }

  lemma OpenWatchOk(h: History, now: int, prev: int, last: int)
    requires 0 <= prev <= now
    ensures BufferOk(h, now, prev, [], last, Some(prev + 1))
  {
  }

  lemma ReopenedKeeps(c: Config, s: State, fault: FullFault)
    requires StoreInv(c, s) && s.events == [] && s.watch.None?
    ensures var r := Reopened(c, s, fault);
            && Inv(c, r.state) && r.state == s.(watch := r.state.watch)
            && (r.ok ==> r.state.watch == if c.deltasEnabled then Some(s.prevSnapshot.lastRevision + 1) else None)
  {
    hide StoreOk, PrevOk, RecentOk, ValidHistory;
    OpenWatchOk(c.history, s.etcdRevision, s.prevSnapshot.lastRevision, s.lastEventRevision);
  }

  /** What a request for a full snapshot comes to. If it reports success, the last snapshot is a full
      one of the revision that was read, final if that was asked for, and in the store. Unless it
      fails before, it saves one under the current time with what etcd holds by then, if and only if
      the last snapshot is not a final full one of this revision already and a final one asked for. */
  lemma FullIsTaken(c: Config, s: State, isFinal: bool, lag: nat, now: int, fault: FullFault)
    requires StoreInv(c, s)
    ensures var r := TakenFull(c, s, isFinal, lag, now, fault);
            FullAnswered(s, isFinal, r.state, r.ok) && FullHeld(c, s, isFinal, now, fault, r.state)
  {
    hide StoreOk, PrevOk, ValidHistory, StateAt;
    var t := TakenFull(c, s, isFinal, lag, now, fault).state;
    assert t.prevSnapshot in t.store ==> Remembered(t.store, t.prevSnapshot);
  }

  ghost predicate FullAnswered(s: State, isFinal: bool, t: State, ok: bool) {
    ok ==>
      && t.prevSnapshot.IsFull() && t.prevSnapshot.lastRevision == s.etcdRevision
      && (isFinal ==> t.prevSnapshot.isFinal) && Remembered(t.store, t.prevSnapshot)
  }

  ghost predicate FullHeld(c: Config, s: State, isFinal: bool, now: int, fault: FullFault, t: State) {
    var last, full := s.prevSnapshot, t.prevSnapshot;
    if fault.BeforeSave? || fault.OnSave?
       || (isFinal && last.isFinal && last.IsFull() && last.lastRevision == s.etcdRevision)
    then t.store == s.store && full == last
    else
      && full.IsFull() && full.startRevision == 0 && full.lastRevision == s.etcdRevision && full.createdOn == now
      && full.isFinal == isFinal && full.compressionSuffix == c.suffix && full.immutabilityExpiryTime.None?
      && t.store == s.store[full := FullData(StateAt(c.history, t.etcdRevision))]
      && t.prevFullSnapshot == Some(full) && t.prevDeltaSnapshots == []
  }

  /** Whatever fails, a full snapshot keeps the invariant and loses nothing. */
  lemma FullKeeps(c: Config, s: State, isFinal: bool, lag: nat, now: int, fault: FullFault)
    requires StoreInv(c, s)
    ensures var r := TakenFull(c, s, isFinal, lag, now, fault);
            && Inv(c, r.state) && Growth(s, r.state) && r.state.events == []
            && (r.ok ==> r.state.prevSnapshot.lastRevision == s.etcdRevision)
            && (r.ok ==> r.state.watch == if c.deltasEnabled then Some(s.etcdRevision + 1) else None)
  {
    hide StoreOk, PrevOk, RecentOk, ValidHistory, Preserved, StateAt, FullAdded, Reopened;
    PreservedReflexive(s.store);
    var closed := Cleared(s).(watch := None);
    if fault.BeforeSave? {
    } else if AlreadyFinal(s, isFinal) {
      ReopenedKeeps(c, closed, fault);
    } else {
      var taken := Min(s.etcdRevision + lag, LastRevisionOf(c.history));
      if fault.OnSave? {
        AdvanceOk(c.history, s.etcdRevision, taken, s.store, s.prevSnapshot.lastRevision);
      } else {
        var full := NewSnapshot(Full, 0, s.etcdRevision, now, c.suffix, isFinal);
        FullEstablishes(c, s, now, isFinal, lag);
        FullAddedFacts(c, closed, full, taken);
        ReopenedKeeps(c, FullAdded(c, closed, full, taken), fault);
      }
    }
  }

  lemma PreservedReflexive(store: Store)
    ensures Preserved(store, store)
  {
  }

  lemma FullAddedFacts(c: Config, s: State, full: Snapshot, taken: int)
    ensures var t := FullAdded(c, s, full, taken); t.events == s.events && t.watch == s.watch && t.prevSnapshot == full
  {
  }

  lemma RecentSnoc(store: Store, prevSnapshot: Snapshot, prevFull: Option<Snapshot>, deltas: seq<Snapshot>, s: Snapshot,
                   content: Content)
    requires RecentOk(store, prevSnapshot, prevFull, deltas) && Preserved(store, store[s := content])
    requires s.IsDelta() && prevSnapshot.lastRevision + 1 == s.startRevision <= s.lastRevision
    ensures RecentOk(store[s := content], s, prevFull, deltas + [s])
  {
    var after := store[s := content];
    PreservedKeeps(store, after, []);
    RecentGrows(store, after, prevSnapshot, prevFull, deltas);
    assert Remembered(after, s);
    hide Remembered, Preserved;
  }

  lemma DeltaSaved(h: History, now: int, store: Store, prev: int, s: Snapshot, content: Content)
    requires ValidHistory(h) && now <= LastRevisionOf(h)
    requires StoreOk(h, now, store) && PrevOk(now, store, prev)
    requires s.IsDelta() && s.startRevision == prev + 1 && s.lastRevision <= now
    requires content.DeltaData? && content.events == Between(h, prev + 1, s.lastRevision) && content.events != []
    ensures s.startRevision <= s.lastRevision
    ensures StoreOk(h, now, store[s := content]) && PrevOk(now, store[s := content], s.lastRevision)
    ensures Preserved(store, store[s := content])
  {
    BetweenRevisions(h, prev + 1, s.lastRevision);
    assert content.events[0] in content.events;
    hide StoreOk, Reached, Between;
    SaveDelta(h, now, store, s, content);
    assert s !in store;
  }

  /** Cutting a delta saves exactly the revisions from after the last snapshot up to where the watch
      is, under a name that says so, unless nothing was received or it fails. */
  ghost predicate DeltaHeld(c: Config, s: State, now: int, fails: bool, t: State) {
    if s.events == [] || fails then t.store == s.store && t.prevSnapshot == s.prevSnapshot
    else
      var delta, lo := t.prevSnapshot, s.prevSnapshot.lastRevision + 1;
      && s.watch.Some? && delta.IsDelta() && delta.startRevision == lo && delta.lastRevision == s.watch.value - 1
      && delta.createdOn == now && !delta.isFinal && delta.compressionSuffix == c.suffix
      && delta.immutabilityExpiryTime.None?
      && t.store == s.store[delta := DeltaData(Between(c.history, lo, s.watch.value - 1))]
      && t.prevFullSnapshot == s.prevFullSnapshot && t.prevDeltaSnapshots == s.prevDeltaSnapshots + [delta]
  }

  lemma DeltaIsTaken(c: Config, s: State, now: int, fails: bool)
    requires Inv(c, s)
    ensures var r := TakenDelta(c, s, now, fails);
            DeltaHeld(c, s, now, fails, r.state) && (r.ok <==> s.events == [] || !fails)
  {
    hide StoreInv, Between;
  }

  /** Cutting a delta keeps the invariant and loses nothing; a failed one drops the buffer. */
  lemma DeltaKeeps(c: Config, s: State, now: int, fails: bool)
    requires Inv(c, s)
    ensures var r := TakenDelta(c, s, now, fails);
            && StoreInv(c, r.state) && (r.ok ==> BufferInv(c, r.state)) && Growth(s, r.state)
            && r.state.events == [] && r.state.watch == s.watch
  {
    hide StoreOk, PrevOk, RecentOk, ValidHistory, Preserved;
    PreservedReflexive(s.store);
    if s.events != [] && !fails {
      var delta := NextDelta(c, s, now);
      assert s.lastEventRevision == s.watch.value - 1;
      DeltaSaved(c.history, s.etcdRevision, s.store, s.prevSnapshot.lastRevision, delta, DeltaData(s.events));
      RecentSnoc(s.store, s.prevSnapshot, s.prevFullSnapshot, s.prevDeltaSnapshots, delta, DeltaData(s.events));
    }
  }

  /** A watch response extends the buffer to exactly the revisions delivered so far. */
  lemma DeliveredOk(h: History, now: int, prev: int, events: seq<Event>, last: int, next: int, upTo: int)
    requires ValidHistory(h) && 0 <= prev && now <= LastRevisionOf(h)
    requires BufferOk(h, now, prev, events, last, Some(next))
    requires next - 1 <= upTo <= now
    ensures var received := Between(h, next, upTo);
            BufferOk(h, now, prev, events + received,
                     if received == [] then last else received[|received| - 1].modRevision, Some(upTo + 1))
  {
    hide Between, ValidHistory;
    BetweenConcat(h, prev + 1, next - 1, upTo);
    if next <= upTo && 2 <= upTo {
      BetweenEnds(h, next, upTo);
    } else {
      NothingToDeliver(h, next, upTo);
      if next <= upTo { NothingToDeliver(h, prev + 1, next - 1); }
    }
  }

  lemma {:induction false} NothingToDeliver(h: History, lo: int, hi: int)
    requires hi < lo || hi <= 1
    ensures Between(h, lo, hi) == []
    decreases hi - lo
  {
    if lo <= hi { NothingToDeliver(h, lo, hi - 1); }
  }

  lemma DeliveredKeeps(c: Config, s: State, count: nat)
    requires Inv(c, s) && s.watch.Some?
    ensures Inv(c, Delivered(c, s, count)) && s.watch.value <= Delivered(c, s, count).watch.value
  {
    hide StoreOk, PrevOk, RecentOk, ValidHistory, Between;
    var upTo := Min(s.watch.value + count, s.etcdRevision + 1) - 1;
    DeliveredOk(c.history, s.etcdRevision, s.prevSnapshot.lastRevision, s.events, s.lastEventRevision, s.watch.value,
                upTo);
  }

  /** The garbage collector keeps the chain invariant. */
  lemma GarbageKeeps(c: Config, s: State, x: Snapshot)
    requires StoreInv(c, s) && Superseded(s.store, x)
    ensures var t := s.(store := s.store - {x}); StoreInv(c, t) && Progress(s, t, [GarbageDeleted(x)])
  {
    hide StoreOk, Reached, ValidHistory, RecentOk;
    DeleteSuperseded(c.history, s.etcdRevision, s.store, x);
    DeleteCovers(s.store, x);
    RecentGrows(s.store, s.store - {x}, s.prevSnapshot, s.prevFullSnapshot, s.prevDeltaSnapshots);
    hide Remembered;
  }

  lemma DeleteCovers(store: Store, x: Snapshot)
    requires Superseded(store, x)
    ensures Covered(store, store - {x})
  {
    if !x.isChunk {
      var f :| f in store && f.IsFull() && f != x && x.lastRevision <= f.lastRevision;
      assert f in store - {x};
    }
  }

  /** So does the compactor. */
  lemma CompactionKeeps(c: Config, s: State, revision: int, now: int, suffix: string, isFinal: bool)
    requires StoreInv(c, s) && 1 <= revision <= s.etcdRevision
    ensures var t := Compacted(c, s, revision, now, suffix, isFinal); StoreInv(c, t) && Growth(s, t)
  {
    hide StoreOk, Reached, ValidHistory, RecentOk, KvAt;
    var full := NewSnapshot(Full, 0, revision, now, suffix, isFinal);
    var content := FullData(StateAt(c.history, revision));
    SaveFull(c.history, s.etcdRevision, s.etcdRevision, s.store, full, content);
    PreservedKeeps(s.store, s.store[full := content], []);
    RecentGrows(s.store, s.store[full := content], s.prevSnapshot, s.prevFullSnapshot, s.prevDeltaSnapshots);
  }

  /** One turn keeps the chain invariant, loses nothing that was saved but what the collector
      deletes, and does not turn the watch back. */
  lemma HandleKeeps(c: Config, s: State, input: Input)
    requires Inv(c, s)
    ensures var t := Handle(c, s, input);
            && StoreInv(c, t.state) && Progress(s, t.state, [input])
            && (t.outcome.Running? ==> BufferInv(c, t.state) && WatchKept(c, s, t.state))
            && (t.outcome.Stopped? || t.outcome.SnapshotFailed? ==> t.state.events == [])
            && !t.outcome.CaughtUp?
            && TurnHeld(c, s, input, t)
  {
    hide TurnHeld;
    TurnHolds(c, s, input);
    match input
    case FullSnapshot(isFinal, lag, now, fault) =>
      hide StoreInv, Growth, TakenFull, Progress;
      FullKeeps(c, s, isFinal, lag, now, fault);
      GrowthIsProgress(s, TakenFull(c, s, isFinal, lag, now, fault).state, [input]);
    case DeltaSnapshot(now, fails) =>
      hide StoreInv, BufferInv, Growth, TakenDelta, Progress;
      SameIsProgress(s, [input]);
      DeltaKeeps(c, s, now, fails);
      GrowthIsProgress(s, TakenDelta(c, s, now, fails).state, [input]);
    case WatchResponse(count, overLimit, now, fails) =>
      WatchKeeps(c, s, count, overLimit, now, fails);
    case _ =>
      OthersKeep(c, s, input);
  }

  /** What a turn saves or deletes, and when. */
  ghost predicate TurnHeld(c: Config, s: State, input: Input, t: Turn) {
    match input
    case FullSnapshot(isFinal, _, now, fault) =>
      FullAnswered(s, isFinal, t.state, t.outcome.Running?) && FullHeld(c, s, isFinal, now, fault, t.state)
    case DeltaSnapshot(now, fails) =>
      if c.deltasEnabled then DeltaHeld(c, s, now, fails, t.state) else t.state == s
    case WatchResponse(count, overLimit, now, fails) =>
      if s.watch.Some? && overLimit then DeltaHeld(c, Delivered(c, s, count), now, fails, t.state)
      else t.state.store == s.store && t.state.prevSnapshot == s.prevSnapshot
    case _ => OthersHeld(c, s, input, t.state)
  }

  lemma TurnHolds(c: Config, s: State, input: Input)
    requires Inv(c, s)
    ensures TurnHeld(c, s, input, Handle(c, s, input))
  {
    hide StoreInv, BufferInv, TakenFull, TakenDelta, FullAnswered, FullHeld, DeltaHeld, OthersHeld, Received;
    match input
    case FullSnapshot(isFinal, lag, now, fault) =>
      FullIsTaken(c, s, isFinal, lag, now, fault);
    case DeltaSnapshot(now, fails) =>
      DeltaIsTaken(c, s, now, fails);
    case WatchResponse(count, overLimit, now, fails) =>
      if s.watch.Some? {
        DeliveredKeeps(c, s, count);
        DeltaIsTaken(c, Delivered(c, s, count), now, fails);
      }
    case _ =>
      OthersAct(c, s, input);
  }

  /** What others do: etcd writes, the collector deletes what a full snapshot covers, the compactor
      saves the etcd of a revision. */
  ghost predicate OthersHeld(c: Config, s: State, input: Input, t: State) {
    match input
    case EtcdAdvances(count) =>
      var end := LastRevisionOf(c.history);
      && t == s.(etcdRevision := t.etcdRevision)
      && (t.etcdRevision == s.etcdRevision + count || t.etcdRevision == end < s.etcdRevision + count)
    case GarbageDeleted(x) =>
      && t == s.(store := t.store)
      && forall y :: y in t.store <==> y in s.store && !(y == x && (x.isChunk || Covers(s.store, x)))
    case CompactedSaved(revision, now, suffix, isFinal) =>
      && t == s.(store := t.store)
      && (1 <= revision <= s.etcdRevision ==>
            var full := Snapshot(Full, 0, revision, now, suffix, isFinal, false, None);
            full in t.store && t.store[full] == FullData(StateAt(c.history, revision)))
    case _ => true
  }

  ghost predicate Covers(store: Store, x: Snapshot) {
    exists f :: f in store && f.IsFull() && f != x && x.lastRevision <= f.lastRevision
  }

  lemma OthersAct(c: Config, s: State, input: Input)
    ensures OthersHeld(c, s, input, Handle(c, s, input).state)
  {
    hide StateAt, TakenFull, TakenDelta, Between;
  }

  lemma SameIsProgress(s: State, inputs: seq<Input>)
    ensures Progress(s, s, inputs)
  {
    PreservedReflexive(s.store);
    hide Preserved;
    GrowthIsProgress(s, s, inputs);
  }

  lemma WatchKeeps(c: Config, s: State, count: nat, overLimit: bool, now: int, fails: bool)
    requires Inv(c, s)
    ensures var input := WatchResponse(count, overLimit, now, fails);
            var t := Handle(c, s, input);
            && StoreInv(c, t.state) && Progress(s, t.state, [input])
            && (t.outcome.Running? ==> BufferInv(c, t.state) && WatchKept(c, s, t.state))
            && (t.outcome.SnapshotFailed? ==> t.state.events == [])
            && (t.outcome.Running? || t.outcome.SnapshotFailed?)
  {
    hide StoreInv, BufferInv, TakenDelta, Preserved;
    var input := WatchResponse(count, overLimit, now, fails);
    SameIsProgress(s, [input]);
    if s.watch.Some? {
      var m := Delivered(c, s, count);
      DeliveredKeeps(c, s, count);
      PreservedReflexive(s.store);
      GrowthIsProgress(s, m, [input]);
      DeltaKeeps(c, m, now, fails);
      var t := TakenDelta(c, m, now, fails).state;
      assert Growth(s, t);
      GrowthIsProgress(s, t, [input]);
      hide Progress, Growth;
    }
  }

  lemma OthersKeep(c: Config, s: State, input: Input)
    requires Inv(c, s) && !input.FullSnapshot? && !input.DeltaSnapshot? && !input.WatchResponse?
    ensures var t := Handle(c, s, input);
            && StoreInv(c, t.state) && Progress(s, t.state, [input])
            && (t.outcome.Running? ==> BufferInv(c, t.state) && WatchKept(c, s, t.state))
            && (t.outcome.Stopped? ==> t.state.events == [])
            && !t.outcome.SnapshotFailed? && !t.outcome.CaughtUp?
  {
    hide StoreInv, Progress, Between, Superseded;
    OthersKeepStore(c, s, input);
  }

  /** The store is kept whatever is in the buffer. */
  lemma OthersKeepStore(c: Config, s: State, input: Input)
    requires StoreInv(c, s) && !input.FullSnapshot? && !input.DeltaSnapshot? && !input.WatchResponse?
    ensures var t := Handle(c, s, input);
            && StoreInv(c, t.state) && Progress(s, t.state, [input]) && s.etcdRevision <= t.state.etcdRevision
  {
    hide StoreOk, PrevOk, RecentOk, ValidHistory, Between, Kept, Covered, Superseded, Preserved;
    SameIsProgress(s, [input]);
    match input
    case EtcdAdvances(count) =>
      var later := Min(s.etcdRevision + count, LastRevisionOf(c.history));
      AdvanceOk(c.history, s.etcdRevision, later, s.store, s.prevSnapshot.lastRevision);
    case GarbageDeleted(x) =>
      if Superseded(s.store, x) { GarbageKeeps(c, s, x); }
    case CompactedSaved(revision, now, suffix, isFinal) =>
      if 1 <= revision <= s.etcdRevision {
        CompactionKeeps(c, s, revision, now, suffix, isFinal);
        GrowthIsProgress(s, Compacted(c, s, revision, now, suffix, isFinal), [input]);
      }
    case _ =>
  }

  /** In every state of every run of the event handler up to its first exit, with the garbage
      collector and the compactor at work on the same store, the base, the deltas and the buffer
      cover contiguous revisions, and nothing is lost but what the collector deletes. */
  lemma {:induction false} HandleAllKeeps(c: Config, s: State, inputs: seq<Input>)
    requires Inv(c, s)
    ensures var t := HandleAll(c, s, inputs);
            && StoreInv(c, t.state) && Progress(s, t.state, inputs)
            && (t.outcome.Running? ==> BufferInv(c, t.state) && WatchKept(c, s, t.state))
            && (t.outcome.Stopped? || t.outcome.SnapshotFailed? ==> t.state.events == [])
            && !t.outcome.CaughtUp?
  {
    hide StoreInv, BufferInv, Progress, Handle, TurnHeld;
    if inputs == [] {
      SameIsProgress(s, inputs);
    } else {
      var init, last := inputs[..|inputs| - 1], inputs[|inputs| - 1];
      var before := HandleAll(c, s, init);
      HandleAllKeeps(c, s, init);
      assert inputs == init + [last];
      if before.outcome.Running? {
        HandleKeeps(c, before.state, last);
        ProgressTransitive(s, before.state, Handle(c, before.state, last).state, init, [last]);
      } else {
        SameIsProgress(before.state, [last]);
        ProgressTransitive(s, before.state, before.state, init, [last]);
      }
    }
  }

  lemma {:induction false} HandleAllStops(c: Config, s: State, inputs: seq<Input>, k: nat)
    requires k <= |inputs| && !HandleAll(c, s, inputs[..k]).outcome.Running?
    ensures HandleAll(c, s, inputs) == HandleAll(c, s, inputs[..k])
  {
    hide Handle;
    if k < |inputs| {
      assert inputs[..|inputs| - 1][..k] == inputs[..k];
      HandleAllStops(c, s, inputs[..|inputs| - 1], k);
    } else {
      assert inputs[..k] == inputs;
    }
  }

  /** After opening a watch the buffer is right if and only if it was empty. */
  lemma OpenedIsRight(c: Config, s: State)
    requires StoreInv(c, s)
    ensures StoreInv(c, Opened(s))
    ensures BufferInv(c, Opened(s)) <==> s.events == []
  {
    hide StoreOk, PrevOk, RecentOk, ValidHistory;
  }

  lemma CollectTurnKeeps(c: Config, s: State, target: int, input: Input)
    requires Inv(c, s)
    ensures var t := CollectTurn(c, s, target, input);
            && StoreInv(c, t.state) && Progress(s, t.state, [input])
            && (t.outcome.Running? || t.outcome.CaughtUp? ==> BufferInv(c, t.state) && WatchKept(c, s, t.state))
            && (t.outcome.Stopped? || t.outcome.SnapshotFailed? ==> t.state.events == [])
  {
    hide StoreOk, PrevOk, RecentOk, ValidHistory, BufferOk, TakenFull, TakenDelta, Delivered, Received, Kept, Covered,
         Superseded, Compacted, TurnHeld;
    SameIsProgress(s, [input]);
    HandleKeeps(c, s, input);
  }

  lemma {:induction false} CollectAllKeeps(c: Config, s: State, target: int, inputs: seq<Input>)
    requires Inv(c, s)
    ensures var t := CollectAll(c, s, target, inputs);
            && StoreInv(c, t.state) && Progress(s, t.state, inputs)
            && (t.outcome.Running? || t.outcome.CaughtUp? ==> BufferInv(c, t.state) && WatchKept(c, s, t.state))
            && (t.outcome.Stopped? || t.outcome.SnapshotFailed? ==> t.state.events == [])
  {
    hide StoreInv, BufferInv, Progress, CollectTurn;
    if inputs == [] {
      SameIsProgress(s, inputs);
    } else {
      var init, last := inputs[..|inputs| - 1], inputs[|inputs| - 1];
      var before := CollectAll(c, s, target, init);
      CollectAllKeeps(c, s, target, init);
      assert inputs == init + [last];
      if before.outcome.Running? {
        CollectTurnKeeps(c, before.state, target, last);
        ProgressTransitive(s, before.state, CollectTurn(c, before.state, target, last).state, init, [last]);
      } else {
        SameIsProgress(before.state, [last]);
        ProgressTransitive(s, before.state, before.state, init, [last]);
      }
    }
  }

  /** Collecting is over when everything up to the revision it started with has been received. */
  lemma {:induction false} CollectCatchesUp(c: Config, s: State, target: int, inputs: seq<Input>)
    requires Inv(c, s)
    ensures var t := CollectAll(c, s, target, inputs);
            t.outcome.CaughtUp? ==> t.state.watch.Some? && target < t.state.watch.value
  {
    hide StoreInv, BufferInv, CollectTurn, Progress;
    if inputs != [] {
      var init, last := inputs[..|inputs| - 1], inputs[|inputs| - 1];
      var before := CollectAll(c, s, target, init);
      CollectCatchesUp(c, s, target, init);
      if before.outcome.Running? {
        CollectAllKeeps(c, s, target, init);
        assert Inv(c, before.state);
        TurnCatchesUp(c, before.state, target, last);
      }
    }
  }

  lemma TurnCatchesUp(c: Config, s: State, target: int, input: Input)
    requires Inv(c, s)
    ensures var t := CollectTurn(c, s, target, input);
            t.outcome.CaughtUp? ==> t.state.watch.Some? && target < t.state.watch.value
  {
    hide StoreInv, TakenFull, TakenDelta, Between, TurnHeld;
    HandleKeeps(c, s, input);
    if input.WatchResponse? && s.watch.Some? {
      LastReceived(c, s, input.count);
      DeliveredKeeps(c, s, input.count);
      DeltaKeeps(c, Delivered(c, s, input.count), input.now, input.fails);
    }
  }

  lemma LastReceived(c: Config, s: State, count: nat)
    requires Inv(c, s) && s.watch.Some?
    ensures var received := Received(c, s, count);
            received != [] ==> received[|received| - 1].modRevision < Delivered(c, s, count).watch.value
  {
    hide StoreOk, PrevOk, RecentOk, Between;
    var hi := Min(s.watch.value + count, s.etcdRevision + 1) - 1;
    if hi < s.watch.value || hi <= 1 {
      NothingToDeliver(c.history, s.watch.value, hi);
    } else {
      BetweenEnds(c.history, s.watch.value, hi);
    }
  }

  /** Collecting on an empty buffer gets into the chain invariant and keeps it. Stopped, it closes the
      watch; when it has caught up, the watch is past the revision that etcd had, which is at once if
      that is the one of the last snapshot. */
  lemma CollectKeeps(c: Config, s: State, inputs: seq<Input>)
    requires StoreInv(c, s) && s.events == []
    ensures var t := Collect(c, s, inputs);
            && StoreInv(c, t.state) && Progress(s, t.state, inputs)
            && (t.outcome.Running? || t.outcome.CaughtUp? ==> BufferInv(c, t.state) && t.state.watch.Some?)
            && (t.outcome.Stopped? || t.outcome.SnapshotFailed? ==> t.state.events == [])
            && (t.outcome.Stopped? ==> t.state.watch.None?)
            && (t.outcome.CaughtUp? ==> s.etcdRevision < t.state.watch.value)
            && (s.prevSnapshot.lastRevision == s.etcdRevision ==> t.outcome.CaughtUp?)
  {
    hide StoreInv, BufferInv, Kept, Covered, CollectAll;
    SameIsProgress(s, inputs);
    OpenedIsRight(c, s);
    CollectAllKeeps(c, Opened(s), s.etcdRevision, inputs);
    CollectStaysOpen(c, Opened(s), s.etcdRevision, inputs);
    CollectCatchesUp(c, Opened(s), s.etcdRevision, inputs);
  }

  /** No full snapshot is taken while collecting, so the watch stays open. */
  lemma {:induction false} CollectStaysOpen(c: Config, s: State, target: int, inputs: seq<Input>)
    requires s.watch.Some?
    ensures var t := CollectAll(c, s, target, inputs); t.outcome.Stopped? <==> t.state.watch.None?
  {
    if inputs != [] { CollectStaysOpen(c, s, target, inputs[..|inputs| - 1]); }
  }

  lemma {:induction false} CollectAllStops(c: Config, s: State, target: int, inputs: seq<Input>, k: nat)
    requires k <= |inputs| && !CollectAll(c, s, target, inputs[..k]).outcome.Running?
    ensures CollectAll(c, s, target, inputs) == CollectAll(c, s, target, inputs[..k])
  {
    hide CollectTurn;
    if k < |inputs| {
      assert inputs[..|inputs| - 1][..k] == inputs[..k];
      CollectAllStops(c, s, target, inputs[..|inputs| - 1], k);
    } else {
      assert inputs[..k] == inputs;
    }
  }

  // ---------------------------------------------------------------------------
  // The start
  // ---------------------------------------------------------------------------

  /** The state a new snapshotter starts in; a dummy stands for a missing full snapshot. */
  function StartState(etcdRevision: int, store: Store, full: Option<Snapshot>, deltas: seq<Snapshot>): State {
    State(etcdRevision, store,
          if full.None? then NewSnapshot(Full, 0, 0, 0, "", false)
          else if deltas == [] then full.value
          else deltas[|deltas| - 1],
          full, deltas, [], 0, None)
  }

  /** A snapshotter that continues from the chain selected from a sound store starts in the chain
      invariant, unless the store has deltas and no full snapshot; then the first full snapshot
      gets it there. */
  lemma StartsOk(c: Config, etcdRevision: int, store: Store, list: seq<Snapshot>, deltas: seq<Snapshot>)
    requires ValidHistory(c.history) && 1 <= etcdRevision <= LastRevisionOf(c.history)
    requires StoreOk(c.history, etcdRevision, store) && IsListing(store, list)
    requires multiset(deltas) == multiset(Tail(list)) && Sorted(deltas)
    ensures deltas == Tail(list)
    ensures var s := StartState(etcdRevision, store, Base(list), deltas);
            && Sound(c, s) && BufferInv(c, s)
            && (StoreInv(c, s) <==> Base(list).Some? || Tail(list) == [])
  {
    hide StoreOk, IsListing, Tail, LastFull, Sorted, ValidHistory, RecentOk, Reached;
    TailMembers(store, list);
    TailOrder(c.history, etcdRevision, store, list);
    SortedUnique(Tail(list), deltas);
    if LastFull(list) >= 0 {
      StartsOnBase(c, etcdRevision, store, list);
    } else if deltas == [] {
      NoDeltas(store, list);
      StartsEmpty(etcdRevision, store);
    } else {
      assert deltas[0] in deltas;
      DeltaIsOk(c.history, etcdRevision, store, deltas[0]);
    }
  }

  lemma StartsEmpty(etcdRevision: int, store: Store)
    requires 1 <= etcdRevision && forall d :: d in store ==> !d.IsDelta()
    ensures PrevOk(etcdRevision, store, 0) && RecentOk(store, NewSnapshot(Full, 0, 0, 0, "", false), None, [])
  {
  }

  lemma StartsOnBase(c: Config, etcdRevision: int, store: Store, list: seq<Snapshot>)
    requires StoreOk(c.history, etcdRevision, store) && IsListing(store, list) && LastFull(list) >= 0
    ensures var prev := StartState(etcdRevision, store, Base(list), Tail(list)).prevSnapshot;
            PrevOk(etcdRevision, store, prev.lastRevision) && RecentOk(store, prev, Base(list), Tail(list))
  {
    hide StoreOk, IsListing, Tail, LastFull, Sorted;
    TailMembers(store, list);
    SelectedEnd(c.history, etcdRevision, store, list);
    TailFollows(c.history, etcdRevision, store, list);
    AroundBase(store, list);
    forall d | d in Tail(list) ensures d.startRevision <= d.lastRevision {
      DeltaIsOk(c.history, etcdRevision, store, d);
    }
  }

  lemma NoDeltas(store: Store, list: seq<Snapshot>)
    requires IsListing(store, list) && LastFull(list) < 0 && Tail(list) == []
    ensures forall d :: d in store ==> !d.IsDelta()
  {
    assert list[0..] == list;
    WithoutChunksMembers(list);
  }

  // ---------------------------------------------------------------------------
  // Implementation
  // ---------------------------------------------------------------------------

  class Snapshotter {
    const config: Config
    var etcdRevision: int
    var store: Store
    var prevSnapshot: Snapshot
    var prevFullSnapshot: Option<Snapshot>
    var prevDeltaSnapshots: seq<Snapshot>
    var events: seq<Event>
    var lastEventRevision: int
    var watch: Option<int>

    function Current(): State
      reads this
    {
      State(etcdRevision, store, prevSnapshot, prevFullSnapshot, prevDeltaSnapshots, events, lastEventRevision, watch)
    }

    /** NewSnapshotter: continues from the chain selected from the store. */
    constructor (config: Config, etcdRevision: int, store: Store, list: seq<Snapshot>)
      ensures this.config == config
      ensures multiset(prevDeltaSnapshots) == multiset(Tail(list)) && Sorted(prevDeltaSnapshots)
      ensures Current() == StartState(etcdRevision, store, Base(list), prevDeltaSnapshots)
    {
      var full, deltas := GetLatestFullSnapshotAndDeltaSnapList(list);
      this.config, this.etcdRevision, this.store := config, etcdRevision, store;
      prevFullSnapshot, prevDeltaSnapshots := full, deltas;
      prevSnapshot := if full.None? then NewSnapshot(Full, 0, 0, 0, "", false)
                      else if deltas == [] then full.value
                      else deltas[|deltas| - 1];
      events, lastEventRevision, watch := [], 0, None;
    }

    method CleanupInMemoryEvents()
      modifies `events, `lastEventRevision
      ensures Current() == Cleared(old(Current()))
    {
      events, lastEventRevision := [], -1;
    }

    method TakeFullSnapshot(isFinal: bool, lag: nat, now: int, fault: FullFault) returns (ok: bool)
      modifies this
      ensures Result(Current(), ok) == TakenFull(config, old(Current()), isFinal, lag, now, fault)
    {
      hide StateAt;
      CleanupInMemoryEvents();
      watch := None;
      if fault.BeforeSave? {
        return false;
      }
      var lastRevision := etcdRevision;
      if !(isFinal && prevSnapshot.isFinal && prevSnapshot.kind.Full? && prevSnapshot.lastRevision == lastRevision) {
        etcdRevision := Min(lastRevision + lag, LastRevisionOf(config.history));
        if fault.OnSave? {
          return false;
        }
        var s := NewSnapshot(Full, 0, lastRevision, now, config.suffix, isFinal);
        store := store[s := FullData(StateAt(config.history, etcdRevision))];
        prevSnapshot, prevFullSnapshot, prevDeltaSnapshots := s, Some(s), [];
      }
      if !config.deltasEnabled {
        return true;
      }
      if fault.OnWatch? {
        return false;
      }
      watch := Some(prevSnapshot.lastRevision + 1);
      ok := true;
    }

    method TakeDeltaSnapshot(now: int, fails: bool) returns (ok: bool)
      modifies this
      ensures Result(Current(), ok) == TakenDelta(config, old(Current()), now, fails)
    {
      ok := true;
      if events != [] {
        ok := !fails;
        if !fails {
          var s := NewSnapshot(Incr, prevSnapshot.lastRevision + 1, lastEventRevision, now, config.suffix, false);
          store := store[s := DeltaData(events)];
          prevSnapshot, prevDeltaSnapshots := s, prevDeltaSnapshots + [s];
        }
      }
      CleanupInMemoryEvents();
    }

    /** Appends the events of a watch response; a buffer over the memory limit is saved. */
    method HandleDeltaWatchEvents(received: seq<Event>, overLimit: bool, now: int, fails: bool) returns (ok: bool)
      modifies this
      ensures Result(Current(), ok) ==
              if overLimit then TakenDelta(config, Buffered(old(Current()), received), now, fails)
              else Result(Buffered(old(Current()), received), true)
    {
      ghost var before := Current();
      for i := 0 to |received|
        modifies `events, `lastEventRevision
        invariant Current() == Buffered(before, received[..i])
      {
        events := events + [received[i]];
        lastEventRevision := received[i].modRevision;
        assert received[..i + 1] == received[..i] + [received[i]];
      }
      assert received[..|received|] == received;
      ok := true;
      if overLimit {
        ok := TakeDeltaSnapshot(now, fails);
      }
    }

    /** One turn of the select loop. */
    method HandleOne(input: Input) returns (outcome: Outcome)
      modifies this
      ensures Turn(Current(), outcome) == Handle(config, old(Current()), input)
    {
      hide StateAt, Between;
      var ok := true;
      match input {
        case EtcdAdvances(count) =>
          etcdRevision := Min(etcdRevision + count, LastRevisionOf(config.history));
        case FullSnapshot(isFinal, lag, now, fault) =>
          ok := TakeFullSnapshot(isFinal, lag, now, fault);
        case DeltaSnapshot(now, fails) =>
          if config.deltasEnabled {
            ok := TakeDeltaSnapshot(now, fails);
          }
        case WatchResponse(count, overLimit, now, fails) =>
          if watch.Some? {
            var received := Received(config, Current(), count);
            watch := Some(Min(watch.value + count, etcdRevision + 1));
            ok := HandleDeltaWatchEvents(received, overLimit, now, fails);
          }
        case WatchBreaks =>
          if watch.Some? {
            return WatchFailed;
          }
        case Stop =>
          CleanupInMemoryEvents();
          return Stopped;
        case GarbageDeleted(x) =>
          if Superseded(store, x) {
            store := store - {x};
          }
        case CompactedSaved(revision, now, suffix, isFinal) =>
          if 1 <= revision <= etcdRevision {
            store := Compacted(config, Current(), revision, now, suffix, isFinal).store;
          }
      }
      outcome := if ok then Running else SnapshotFailed;
    }

    /** The event handler over any script of inputs, up to its first exit. */
    method SnapshotEventHandler(inputs: seq<Input>) returns (outcome: Outcome)
      modifies this
      ensures Turn(Current(), outcome) == HandleAll(config, old(Current()), inputs)
    {
      hide Handle;
      outcome := Running;
      for i := 0 to |inputs|
        invariant outcome.Running?
        invariant Turn(Current(), outcome) == HandleAll(config, old(Current()), inputs[..i])
      {
        assert inputs[..i + 1][..i] == inputs[..i];
        outcome := HandleOne(inputs[i]);
        if !outcome.Running? {
          HandleAllStops(config, old(Current()), inputs, i + 1);
          return;
        }
      }
      assert inputs[..|inputs|] == inputs;
    }

    /** Opens a watch after the last snapshot and collects until it has caught up with the
        revision etcd had. The buffer is not cleared. */
    method CollectEventsSincePrevSnapshot(inputs: seq<Input>) returns (outcome: Outcome)
      modifies this
      ensures Turn(Current(), outcome) == Collect(config, old(Current()), inputs)
    {
      hide Handle, Between;
      watch := Some(prevSnapshot.lastRevision + 1);
      var lastEtcdRevision := etcdRevision;
      if prevSnapshot.lastRevision == lastEtcdRevision {
        return CaughtUp;
      }
      ghost var start := Current();
      outcome := Running;
      for i := 0 to |inputs|
        invariant outcome.Running?
        invariant Turn(Current(), outcome) == CollectAll(config, start, lastEtcdRevision, inputs[..i])
      {
        assert inputs[..i + 1][..i] == inputs[..i];
        var input := inputs[i];
        if !input.FullSnapshot? && !input.DeltaSnapshot? {
          var caughtUp := input.WatchResponse? && watch.Some?
                          && Reaches(Received(config, Current(), input.count), lastEtcdRevision);
          outcome := HandleOne(input);
          if input.Stop? {
            watch, outcome := None, Stopped;
          } else if outcome.Running? && caughtUp {
            outcome := CaughtUp;
          }
          if !outcome.Running? {
            CollectAllStops(config, start, lastEtcdRevision, inputs, i + 1);
            return;
          }
        }
      }
      assert inputs[..|inputs|] == inputs;
    }
  }
}

/** The object store as the snapshotter, the compactor and the restorer see it, and why the
    chain selected from it can be restored. */
module BackupStore {
  import opened Etcd
  import opened Restorer
  import opened RestoreTheorems
  import opened SnapTypes
  import opened Selection

  datatype Content = FullData(db: Db) | DeltaData(events: seq<Event>)

  /** Keyed by metadata, which the object name determines. */
  type Store = map<Snapshot, Content>

  /** What `List` may return: every snapshot once, sorted. */
  ghost predicate IsListing(store: Store, list: seq<Snapshot>) {
    Distinct(list) && Sorted(list) && forall s :: s in list <==> s in store
  }

  function DeltaOf(s: Snapshot, content: Content): Delta {
    Delta(s.startRevision, s.lastRevision, if content.DeltaData? then content.events else [])
  }

  function Fetched(store: Store, snaps: seq<Snapshot>): (deltas: seq<Delta>)
    requires forall s :: s in snaps ==> s in store
    ensures |deltas| == |snaps|
    ensures forall i :: 0 <= i < |snaps| ==> deltas[i] == DeltaOf(snaps[i], store[snaps[i]])
  {
    seq(|snaps|, i requires 0 <= i < |snaps| => DeltaOf(snaps[i], store[snaps[i]]))
  }

  // ---------------------------------------------------------------------------
  // The invariant of the store
  // ---------------------------------------------------------------------------

  /** A full snapshot labelled `r` holds the etcd of some revision from `r` up to `now`, since
      the revision is read before the snapshot is taken. */
  ghost predicate FullOk(h: History, now: int, s: Snapshot, content: Content) {
    && content.FullData?
    && 1 <= content.db.revision
    && 0 <= s.lastRevision <= content.db.revision <= now
    && content.db == StateAt(h, content.db.revision)
  }

  ghost predicate DeltaOk(h: History, now: int, s: Snapshot, content: Content) {
    content.DeltaData? && ExactSlice(h, DeltaOf(s, content)) && s.lastRevision <= now
  }

  ghost predicate ObjectsOk(h: History, now: int, store: Store) {
    && (forall s :: s in store && s.IsFull() ==> FullOk(h, now, s, store[s]))
    && (forall s :: s in store && s.IsDelta() ==> DeltaOk(h, now, s, store[s]))
  }

  /** No revision lies in two deltas. */
  ghost predicate Disjoint(store: Store) {
    forall s, t :: s in store && t in store && s.IsDelta() && t.IsDelta() && s != t ==>
                     s.lastRevision < t.startRevision || t.lastRevision < s.startRevision
  }

  /** Nothing is missing between `revision` and what a restore would bring back: it is the
      label of a full snapshot or below one, or the end of a delta. */
  ghost predicate Reached(store: Store, revision: int) {
    || revision <= 0
    || (exists f :: f in store && f.IsFull() && revision <= f.lastRevision)
    || (exists d :: d in store && d.IsDelta() && d.lastRevision == revision)
  }

  ghost predicate Connected(store: Store) {
    forall s :: s in store && s.IsDelta() ==> Reached(store, s.startRevision - 1)
  }

  ghost predicate StoreOk(h: History, now: int, store: Store) {
    ObjectsOk(h, now, store) && Disjoint(store) && Connected(store)
  }

  /** Saving any sound full snapshot keeps the store sound, whoever saves it. */
  lemma SaveFull(h: History, now: int, now': int, store: Store, s: Snapshot, content: Content)
    requires StoreOk(h, now, store) && now <= now'
    requires s.IsFull() && FullOk(h, now', s, content)
    ensures StoreOk(h, now', store[s := content])
    ensures forall r :: Reached(store, r) ==> Reached(store[s := content], r)
    ensures Reached(store[s := content], s.lastRevision)
  {
    var after := store[s := content];
    forall r | Reached(store, r) ensures Reached(after, r) {
      ReachedGrows(store, s, content, r);
    }
    ReachedGrows(store, s, content, s.lastRevision);
  }

  lemma ReachedGrows(store: Store, s: Snapshot, content: Content, r: int)
    requires Reached(store, r) || (s.IsFull() && r <= s.lastRevision) || (s.IsDelta() && r == s.lastRevision)
    ensures Reached(store[s := content], r)
  {
    var after := store[s := content];
    assert s in after;
    if f :| f in store && f.IsFull() && r <= f.lastRevision {
      assert f in after;
    } else if d :| d in store && d.IsDelta() && d.lastRevision == r {
      assert d in after;
    }
  }

  /** Saving a delta that starts right after a reached revision above all other deltas. */
  lemma SaveDelta(h: History, now: int, store: Store, s: Snapshot, content: Content)
    requires StoreOk(h, now, store)
    requires s.IsDelta() && DeltaOk(h, now, s, content)
    requires Reached(store, s.startRevision - 1)
    requires forall d :: d in store && d.IsDelta() ==> d.lastRevision < s.startRevision
    ensures StoreOk(h, now, store[s := content])
    ensures forall r :: Reached(store, r) ==> Reached(store[s := content], r)
    ensures Reached(store[s := content], s.lastRevision)
  {
    var after := store[s := content];
    forall r | Reached(store, r) ensures Reached(after, r) {
      ReachedGrows(store, s, content, r);
    }
    ReachedGrows(store, s, content, s.lastRevision);
    assert Connected(after) by {
      hide Reached, ObjectsOk, Disjoint;
    }
    assert ObjectsOk(h, now, after) by {
      hide Reached, ExactSlice;
    }
    hide Reached, Connected, ObjectsOk;
  }

  /** What the garbage collector may delete: chunks, and what a full snapshot that stays covers. */
  predicate Superseded(store: Store, x: Snapshot) {
    x in store && (x.isChunk || exists f :: f in store && f.IsFull() && f != x && x.lastRevision <= f.lastRevision)
  }

  /** That is everything listed before the newest full snapshot of a listing, taken earlier, of
      which that full snapshot is still there. */
  lemma ListedBeforeIsSuperseded(store: Store, list: seq<Snapshot>, i: nat)
    requires Sorted(list) && Distinct(list) && i < LastFull(list) && list[i] in store && list[LastFull(list)] in store
    ensures Superseded(store, list[i])
  {
    var f := list[LastFull(list)];
    assert f != list[i] && (!list[i].isChunk ==> !Less(f, list[i]));
  }

  /** Deleting a superseded snapshot keeps the store sound, and everything that was reached. */
  lemma DeleteSuperseded(h: History, now: int, store: Store, x: Snapshot)
    requires StoreOk(h, now, store) && Superseded(store, x)
    ensures StoreOk(h, now, store - {x})
    ensures forall r :: Reached(store, r) ==> Reached(store - {x}, r)
  {
    var after := store - {x};
    forall r | Reached(store, r) ensures Reached(after, r) {
      ReachedWithout(store, x, r);
    }
    assert Connected(after) by {
      hide Reached, ObjectsOk, Disjoint;
    }
    hide Reached, Connected, ExactSlice;
  }

  lemma ReachedWithout(store: Store, x: Snapshot, r: int)
    requires Superseded(store, x) && Reached(store, r)
    ensures Reached(store - {x}, r)
  {
    var after := store - {x};
    if f :| f in store && f.IsFull() && f != x && x.lastRevision <= f.lastRevision {
      assert f in after;
    }
    if g :| g in store && g.IsFull() && r <= g.lastRevision {
      assert g != x ==> g in after;
    } else if d :| d in store && d.IsDelta() && d.lastRevision == r {
      assert d != x ==> d in after;
    }
  }

  // ---------------------------------------------------------------------------
  // The selected chain
  // ---------------------------------------------------------------------------

  lemma TailMembers(store: Store, list: seq<Snapshot>)
    requires IsListing(store, list)
    ensures forall s :: s in Tail(list) ==> s in store && s.IsDelta()
    ensures Sorted(Tail(list)) && Distinct(Tail(list))
  {
    hide Less;
    var k := LastFull(list);
    var rest := list[k + 1..];
    assert forall i :: 0 <= i < |rest| ==> rest[i] == list[k + 1 + i];
    WithoutChunksMembers(rest);
    WithoutChunksOrder(rest);
  }

  /** The deltas after the base come in strictly increasing order of revisions. */
  lemma TailOrder(h: History, now: int, store: Store, list: seq<Snapshot>)
    requires StoreOk(h, now, store) && IsListing(store, list)
    ensures StrictlyByRevision(Tail(list))
    ensures forall i, j :: 0 <= i < j < |Tail(list)| ==> Tail(list)[i].lastRevision < Tail(list)[j].startRevision
  {
    hide Less, ObjectsOk, Disjoint, Connected, Tail, IsListing;
    var tail := Tail(list);
    TailMembers(store, list);
    forall i, j | 0 <= i < j < |tail|
      ensures tail[i].lastRevision < tail[j].startRevision && tail[i].lastRevision < tail[j].lastRevision
    {
      assert tail[i] in tail && tail[j] in tail;
      SortedPair(h, now, store, tail[i], tail[j]);
    }
  }

  lemma SortedPair(h: History, now: int, store: Store, s: Snapshot, t: Snapshot)
    requires ObjectsOk(h, now, store) && Disjoint(store)
    requires s in store && t in store && s.IsDelta() && t.IsDelta() && s != t
    requires !Less(t, s)
    ensures s.lastRevision < t.startRevision && s.lastRevision < t.lastRevision
  {
    assert DeltaOk(h, now, s, store[s]) && DeltaOk(h, now, t, store[t]);
  }

  /** Around the base of a sorted listing: nothing before it is newer, nothing after it older. */
  lemma AroundBase(store: Store, list: seq<Snapshot>)
    requires IsListing(store, list) && LastFull(list) >= 0
    ensures var base := list[LastFull(list)];
            && base in store && base.IsFull()
            && (forall s :: s in Tail(list) ==> base.lastRevision <= s.lastRevision)
            && (forall s :: s in store && !s.isChunk && s !in Tail(list) ==> s.lastRevision <= base.lastRevision)
  {
    var k := LastFull(list);
    var rest := list[k + 1..];
    WithoutChunksMembers(rest);
    forall i | k < i < |list| ensures list[i] in rest {
      assert list[i] == rest[i - k - 1];
    }
    forall s | s in Tail(list) ensures list[k].lastRevision <= s.lastRevision {
      var i :| 0 <= i < |rest| && rest[i] == s;
      assert list[k + 1 + i] == s && !Less(s, list[k]);
    }
    forall s | s in store && !s.isChunk && s !in Tail(list) ensures s.lastRevision <= list[k].lastRevision {
      var i :| 0 <= i < |list| && list[i] == s;
      assert i == k || !Less(list[k], s);
    }
  }

  /** The selected deltas follow the base's label and each other without gap or overlap. */
  lemma TailFollows(h: History, now: int, store: Store, list: seq<Snapshot>)
    requires StoreOk(h, now, store)
    requires IsListing(store, list) && LastFull(list) >= 0
    ensures var base, tail := list[LastFull(list)], Tail(list);
            && (tail != [] ==> tail[0].startRevision - 1 <= base.lastRevision)
            && (forall i, j :: 0 <= i < j < |tail| && j == i + 1 ==>
                                 tail[j].startRevision == tail[i].lastRevision + 1)
  {
    hide Tail, IsListing, LastFull, StoreOk, Sorted, Distinct;
    var base, tail := list[LastFull(list)], Tail(list);
    AroundBase(store, list);
    TailMembers(store, list);
    TailOrder(h, now, store, list);
    hide StrictlyByRevision;
    if tail != [] {
      NoGapBefore(h, now, store, tail, base, 0);
    }
    forall i, j | 0 <= i < j < |tail| && j == i + 1
      ensures tail[j].startRevision == tail[i].lastRevision + 1
    {
      NoGapBefore(h, now, store, tail, base, j);
    }
  }

  /** The selected deltas are a chain over what the base holds. */
  lemma SelectedChain(h: History, now: int, store: Store, list: seq<Snapshot>)
    requires StoreOk(h, now, store) && now <= LastRevisionOf(h)
    requires IsListing(store, list) && LastFull(list) >= 0
    ensures forall s :: s in Tail(list) ==> s in store
    ensures var base := list[LastFull(list)];
            && base in store && FullOk(h, now, base, store[base])
            && Chain(h, store[base].db.revision, Fetched(store, Tail(list)))
  {
    hide Tail, IsListing, LastFull, StoreOk, FullOk, Chain, Fetched, Sorted, Distinct;
    var base, tail := list[LastFull(list)], Tail(list);
    AroundBase(store, list);
    TailMembers(store, list);
    TailFollows(h, now, store, list);
    FullIsOk(h, now, store, base);
    ChainOfTail(h, now, store, tail, base);
  }

  lemma FullIsOk(h: History, now: int, store: Store, s: Snapshot)
    requires StoreOk(h, now, store) && s in store && s.IsFull()
    ensures FullOk(h, now, s, store[s])
    ensures 0 <= s.lastRevision
  {
  }

  lemma DeltaIsOk(h: History, now: int, store: Store, s: Snapshot)
    requires StoreOk(h, now, store) && s in store && s.IsDelta()
    ensures ExactSlice(h, DeltaOf(s, store[s])) && Reached(store, s.startRevision - 1)
    ensures 1 <= s.startRevision <= s.lastRevision && 2 <= s.lastRevision <= now
  {
    assert DeltaOk(h, now, s, store[s]);
  }

  lemma ChainOfTail(h: History, now: int, store: Store, tail: seq<Snapshot>, base: Snapshot)
    requires StoreOk(h, now, store) && base in store && base.IsFull()
    requires forall s :: s in tail ==> s in store && s.IsDelta()
    requires tail != [] ==> tail[0].startRevision - 1 <= base.lastRevision
    requires forall i, j :: 0 <= i < j < |tail| && j == i + 1 ==> tail[j].startRevision == tail[i].lastRevision + 1
    ensures store[base].FullData? && Chain(h, store[base].db.revision, Fetched(store, tail))
  {
    var deltas := Fetched(store, tail);
    FullIsOk(h, now, store, base);
    hide StoreOk, ExactSlice, Reached, StateAt, Fetched;
    forall i | 0 <= i < |tail| ensures ExactSlice(h, deltas[i]) {
      assert tail[i] in tail;
      DeltaIsOk(h, now, store, tail[i]);
    }
  }

  lemma NoGapBefore(h: History, now: int, store: Store, tail: seq<Snapshot>, base: Snapshot, i: nat)
    requires StoreOk(h, now, store) && i < |tail|
    requires base in store && base.IsFull()
    requires forall s :: s in tail ==> s in store && s.IsDelta() && base.lastRevision <= s.lastRevision
    requires forall s :: s in store && !s.isChunk && s !in tail ==> s.lastRevision <= base.lastRevision
    requires StrictlyByRevision(tail)
    ensures tail[i].startRevision - 1 <= if i == 0 then base.lastRevision else tail[i - 1].lastRevision
  {
    hide StoreOk, ExactSlice;
    var s := tail[i];
    assert s in tail;
    DeltaIsOk(h, now, store, s);
    if i > 0 {
      assert tail[i - 1] in tail;
      DeltaIsOk(h, now, store, tail[i - 1]);
    }
    FullIsOk(h, now, store, base);
    if d :| d in tail && d.lastRevision == s.startRevision - 1 {
      var j :| 0 <= j < |tail| && tail[j] == d;
      assert j < i;
    }
  }

  /** The newest snapshot of the selected chain ends at or above every delta of the store. */
  lemma SelectedEnd(h: History, now: int, store: Store, list: seq<Snapshot>)
    requires StoreOk(h, now, store)
    requires IsListing(store, list) && LastFull(list) >= 0
    ensures var base, tail := list[LastFull(list)], Tail(list);
            var end := if tail == [] then base.lastRevision else tail[|tail| - 1].lastRevision;
            && 0 <= end <= now && Reached(store, end)
            && base.lastRevision <= end
            && forall d :: d in store && !d.isChunk ==> d.lastRevision <= end
  {
    hide Tail, IsListing, LastFull, StoreOk, Sorted, Distinct, ExactSlice;
    var base, tail := list[LastFull(list)], Tail(list);
    AroundBase(store, list);
    TailMembers(store, list);
    TailOrder(h, now, store, list);
    FullIsOk(h, now, store, base);
    if tail != [] {
      var last := tail[|tail| - 1];
      assert last in tail;
      DeltaIsOk(h, now, store, last);
      forall d | d in store && !d.isChunk ensures d.lastRevision <= last.lastRevision {
        if d in tail {
          var i :| 0 <= i < |tail| && tail[i] == d;
        }
      }
    }
  }
}

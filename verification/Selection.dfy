/** Choosing the chain to restore from a sorted listing (pkg/miscellaneous/miscellaneous.go). */
module Selection {
  import opened SnapTypes

  /** Position of the newest full snapshot of the listing, or -1. */
  function LastFull(list: seq<Snapshot>): (k: int)
    ensures -1 <= k < |list|
    ensures k >= 0 ==> list[k].IsFull()
    ensures forall i :: k < i < |list| ==> !list[i].IsFull()
  {
    if list == [] then -1
    else if list[|list| - 1].IsFull() then |list| - 1
    else LastFull(list[..|list| - 1])
  }

  function WithoutChunks(list: seq<Snapshot>): seq<Snapshot> {
    if list == [] then []
    else
      var init := WithoutChunks(list[..|list| - 1]);
      if list[|list| - 1].isChunk then init else init + [list[|list| - 1]]
  }

  function Base(list: seq<Snapshot>): Option<Snapshot> {
    var k := LastFull(list);
    if k < 0 then None else Some(list[k])
  }

  /** The deltas listed after the newest full snapshot. */
  function Tail(list: seq<Snapshot>): seq<Snapshot> {
    WithoutChunks(list[LastFull(list) + 1..])
  }

  lemma {:induction false} WithoutChunksConcat(a: seq<Snapshot>, b: seq<Snapshot>)
    ensures WithoutChunks(a + b) == WithoutChunks(a) + WithoutChunks(b)
  {
    if b == [] {
      assert a + b == a;
    } else {
      var init, x := b[..|b| - 1], b[|b| - 1];
      assert (a + b)[..|a + b| - 1] == a + init;
      WithoutChunksConcat(a, init);
    }
  }

  lemma {:induction false} WithoutChunksMembers(list: seq<Snapshot>)
    ensures forall s :: s in WithoutChunks(list) <==> s in list && !s.isChunk
  {
    if list != [] {
      var init, x := list[..|list| - 1], list[|list| - 1];
      assert list == init + [x];
      WithoutChunksMembers(init);
    }
  }

  /** Dropping the chunks keeps the order and adds no repetition. */
  lemma {:induction false} WithoutChunksOrder(list: seq<Snapshot>)
    requires Sorted(list) && Distinct(list)
    ensures Sorted(WithoutChunks(list)) && Distinct(WithoutChunks(list))
  {
    hide Less;
    if list != [] {
      var init, x := list[..|list| - 1], list[|list| - 1];
      WithoutChunksOrder(init);
      WithoutChunksMembers(init);
      var kept := WithoutChunks(init);
      forall i | 0 <= i < |kept| ensures kept[i] != x && (!x.isChunk ==> !Less(x, kept[i])) {
        assert kept[i] in kept;
        var j :| 0 <= j < |init| && init[j] == kept[i];
        assert list[j] == kept[i];
      }
      assert WithoutChunks(list) == if x.isChunk then kept else kept + [x];
      hide WithoutChunks;
    }
  }

  // ---------------------------------------------------------------------------
  // Sorting deltas
  // ---------------------------------------------------------------------------

  function Insert(x: Snapshot, list: seq<Snapshot>): seq<Snapshot> {
    if list == [] || !Less(x, list[|list| - 1]) then list + [x]
    else Insert(x, list[..|list| - 1]) + [list[|list| - 1]]
  }

  lemma {:induction false} InsertMultiset(x: Snapshot, list: seq<Snapshot>)
    ensures multiset(Insert(x, list)) == multiset(list) + multiset{x}
  {
    if list != [] && Less(x, list[|list| - 1]) {
      InsertMultiset(x, list[..|list| - 1]);
      assert list == list[..|list| - 1] + [list[|list| - 1]];
    }
  }

  lemma SortedSnoc(list: seq<Snapshot>, x: Snapshot)
    requires Sorted(list) && forall s :: s in list ==> !Less(x, s)
    ensures Sorted(list + [x])
  {
    hide Less;
    forall i | 0 <= i < |list| ensures !Less(x, list[i]) {
      assert list[i] in list;
    }
  }

  lemma SortedInit(list: seq<Snapshot>)
    requires list != [] && Sorted(list) && forall s :: s in list ==> !s.isChunk
    ensures Sorted(list[..|list| - 1])
    ensures forall s :: s in list ==> !Less(list[|list| - 1], s)
  {
    forall s | s in list ensures !Less(list[|list| - 1], s) {
      var i :| 0 <= i < |list| && list[i] == s;
    }
  }

  lemma {:induction false} InsertSorted(x: Snapshot, list: seq<Snapshot>)
    requires Sorted(list) && !x.isChunk && forall s :: s in list ==> !s.isChunk
    ensures Sorted(Insert(x, list))
  {
    if list != [] {
      var init, y := list[..|list| - 1], list[|list| - 1];
      SortedInit(list);
      forall s | s in list ensures !Less(x, y) ==> !Less(x, s) {
        LessIsStrictWeakOrder(x, y, s);
      }
      hide Sorted;
      if Less(x, y) {
        InsertSorted(x, init);
        InsertMultiset(x, init);
        var more := Insert(x, init);
        forall s | s in more ensures !Less(y, s) {
          assert s in multiset(more);
          assert s in init || s == x;
        }
        SortedSnoc(more, y);
      } else {
        SortedSnoc(list, x);
      }
    }
  }

  /** Stands for sort.Sort on snapshots that are not chunks. */
  method SortSnapList(list: seq<Snapshot>) returns (sorted: seq<Snapshot>)
    requires forall s :: s in list ==> !s.isChunk
    ensures multiset(sorted) == multiset(list)
    ensures Sorted(sorted)
  {
    sorted := [];
    for i := 0 to |list|
      invariant multiset(sorted) == multiset(list[..i])
      invariant Sorted(sorted)
    {
      assert list[..i + 1] == list[..i] + [list[i]];
      forall s | s in sorted ensures !s.isChunk {
        assert s in multiset(sorted);
        assert s in list;
      }
      InsertSorted(list[i], sorted);
      InsertMultiset(list[i], sorted);
      sorted := Insert(list[i], sorted);
    }
    assert list[..|list|] == list;
  }

  /** Walks the listing backwards to the newest full snapshot and collects the deltas. */
  method GetLatestFullSnapshotAndDeltaSnapList(snapList: seq<Snapshot>)
    returns (fullSnapshot: Option<Snapshot>, deltaSnapList: seq<Snapshot>)
    ensures fullSnapshot == Base(snapList)
    ensures multiset(deltaSnapList) == multiset(Tail(snapList))
    ensures Sorted(deltaSnapList)
  {
    hide Sorted, WithoutChunks, LastFull;
    fullSnapshot, deltaSnapList := None, [];
    var index := |snapList|;
    assert snapList[index..] == [];
    NoChunksInNothing();
    while index > 0
      invariant 0 <= index <= |snapList|
      invariant fullSnapshot == None
      invariant forall i :: index <= i < |snapList| ==> !snapList[i].IsFull()
      invariant multiset(deltaSnapList) == multiset(WithoutChunks(snapList[index..]))
    {
      var s := snapList[index - 1];
      if s.isChunk {
        SkipOne(snapList, index - 1);
      } else if s.kind.Full? {
        fullSnapshot := Some(s);
        break;
      } else {
        SkipOne(snapList, index - 1);
        deltaSnapList := deltaSnapList + [s];
      }
      index := index - 1;
    }
    WithoutChunksMembers(snapList[index..]);
    forall s | s in deltaSnapList ensures !s.isChunk {
      assert s in multiset(deltaSnapList);
    }
    deltaSnapList := SortSnapList(deltaSnapList);
  }

  lemma SingleWithoutChunks(x: Snapshot)
    ensures WithoutChunks([x]) == if x.isChunk then [] else [x]
  {
    assert [x][..0] == [];
  }

  lemma NoChunksInNothing()
    ensures WithoutChunks([]) == []
  {
  }

  lemma SkipOne(list: seq<Snapshot>, i: nat)
    requires i < |list|
    ensures multiset(WithoutChunks(list[i..]))
         == multiset(WithoutChunks(list[i + 1..])) + (if list[i].isChunk then multiset{} else multiset{list[i]})
  {
    assert list[i..] == [list[i]] + list[i + 1..];
    WithoutChunksConcat([list[i]], list[i + 1..]);
    assert [list[i]][..0] == [];
  }

  // ---------------------------------------------------------------------------
  // The selection does not depend on the sorting algorithm
  // ---------------------------------------------------------------------------

  ghost predicate StrictlyByRevision(list: seq<Snapshot>) {
    forall i, j :: 0 <= i < j < |list| ==> list[i].lastRevision < list[j].lastRevision
  }

  lemma MultisetInit(list: seq<Snapshot>)
    requires list != []
    ensures multiset(list[..|list| - 1]) == multiset(list) - multiset{list[|list| - 1]}
  {
    assert list == list[..|list| - 1] + [list[|list| - 1]];
  }

  lemma SameLast(a: seq<Snapshot>, b: seq<Snapshot>)
    requires StrictlyByRevision(a) && Sorted(b) && forall s :: s in a ==> !s.isChunk
    requires multiset(a) == multiset(b) && a != []
    ensures b != [] && a[|a| - 1] == b[|b| - 1]
  {
    var x := a[|a| - 1];
    assert x in multiset(b);
    var y := b[|b| - 1];
    assert y in multiset(a);
    var i :| 0 <= i < |a| && a[i] == y;
    var j :| 0 <= j < |b| && b[j] == x;
    if i < |a| - 1 {
      assert Less(y, x);
    }
  }

  /** Deltas with different last revisions have one sorted order. */
  lemma {:induction false} SortedUnique(a: seq<Snapshot>, b: seq<Snapshot>)
    requires StrictlyByRevision(a) && Sorted(b) && forall s :: s in a ==> !s.isChunk
    requires multiset(a) == multiset(b)
    ensures a == b
  {
    hide Less;
    if a == [] {
      assert |multiset(b)| == 0;
    } else {
      SameLast(a, b);
      MultisetInit(a);
      MultisetInit(b);
      SortedUnique(a[..|a| - 1], b[..|b| - 1]);
      assert b == b[..|b| - 1] + [b[|b| - 1]];
    }
  }
}

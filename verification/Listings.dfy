/** How a listing of snapshots changes while snapshots are saved and deleted, and what that does
    to the chain selected for a restore (pkg/miscellaneous/miscellaneous.go). */
module Listings {
  import opened SnapTypes
  import opened Selection

  /** A snapshot saved by somebody else, and where it sorts in. */
  datatype Save = Save(position: nat, snapshot: Snapshot)

  function Arrive(listing: seq<Snapshot>, save: Save): seq<Snapshot> {
    var p := if save.position < |listing| then save.position else |listing|;
    listing[..p] + [save.snapshot] + listing[p..]
  }

  function ArriveAll(listing: seq<Snapshot>, saves: seq<Save>): seq<Snapshot>
    decreases |saves|
  {
    if saves == [] then listing else ArriveAll(Arrive(listing, saves[0]), saves[1..])
  }

  function Without(listing: seq<Snapshot>, x: Snapshot): seq<Snapshot> {
    if listing == [] then []
    else
      var init, last := listing[..|listing| - 1], listing[|listing| - 1];
      Without(init, x) + (if last == x then [] else [last])
  }

  lemma {:induction false} WithoutMembers(listing: seq<Snapshot>, x: Snapshot)
    ensures forall y :: y in Without(listing, x) <==> y in listing && y != x
  {
    if listing != [] {
      var init, last := listing[..|listing| - 1], listing[|listing| - 1];
      assert listing == init + [last];
      WithoutMembers(init, x);
    }
  }

  lemma {:induction false} WithoutConcat(a: seq<Snapshot>, b: seq<Snapshot>, x: Snapshot)
    ensures Without(a + b, x) == Without(a, x) + Without(b, x)
  {
    if b == [] {
      assert a + b == a;
    } else {
      assert (a + b)[..|a + b| - 1] == a + b[..|b| - 1];
      WithoutConcat(a, b[..|b| - 1], x);
    }
  }

  lemma {:induction false} WithoutAbsent(listing: seq<Snapshot>, x: Snapshot)
    requires x !in listing
    ensures Without(listing, x) == listing
  {
    if listing != [] {
      assert listing == listing[..|listing| - 1] + [listing[|listing| - 1]];
      WithoutAbsent(listing[..|listing| - 1], x);
    }
  }

  lemma {:induction false} ArriveAllMembers(listing: seq<Snapshot>, saves: seq<Save>, y: Snapshot)
    requires forall i :: 0 <= i < |saves| ==> saves[i].snapshot != y
    ensures y in ArriveAll(listing, saves) <==> y in listing
    decreases |saves|
  {
    if saves != [] {
      ArriveAllMembers(Arrive(listing, saves[0]), saves[1..], y);
    }
  }

  // ---------------------------------------------------------------------------
  // The selected chain
  // ---------------------------------------------------------------------------

  /** The full snapshot and the deltas that a restore would select. */
  function Selected(listing: seq<Snapshot>): (Option<Snapshot>, seq<Snapshot>) {
    (Base(listing), Tail(listing))
  }

  lemma SelectedSnoc(listing: seq<Snapshot>, x: Snapshot)
    ensures Selected(listing + [x]) ==
            if x.IsFull() then (Some(x), [])
            else if x.isChunk then Selected(listing)
            else (Base(listing), Tail(listing) + [x])
  {
    var longer := listing + [x];
    assert longer[..|listing|] == listing;
    if x.IsFull() {
      assert longer[LastFull(longer) + 1..] == [];
    } else {
      var after := listing[LastFull(listing) + 1..];
      assert longer[LastFull(listing) + 1..] == after + [x];
      assert (after + [x])[..|after|] == after;
    }
  }

  /** What is listed before a full snapshot does not matter for the selection. */
  lemma {:induction false} SelectedSuffix(a: seq<Snapshot>, b: seq<Snapshot>)
    requires b != [] && b[0].IsFull()
    ensures Selected(a + b) == Selected(b)
  {
    hide Selected;
    var init, x := b[..|b| - 1], b[|b| - 1];
    assert a + b == a + init + [x] && b == init + [x];
    SelectedSnoc(a + init, x);
    SelectedSnoc(init, x);
    if |b| > 1 { SelectedSuffix(a, init); }
    assert Selected(a + init) == (Base(a + init), Tail(a + init)) && Selected(init) == (Base(init), Tail(init)) by {
      SelectedParts(a + init);
      SelectedParts(init);
    }
  }

  lemma SelectedParts(listing: seq<Snapshot>)
    ensures Selected(listing) == (Base(listing), Tail(listing))
  {
  }

  lemma {:induction false} ChunkIsNotSelected(listing: seq<Snapshot>, x: Snapshot)
    requires x.isChunk
    ensures Selected(Without(listing, x)) == Selected(listing)
  {
    hide Base, Tail;
    if listing != [] {
      var init, last := listing[..|listing| - 1], listing[|listing| - 1];
      assert listing == init + [last];
      ChunkIsNotSelected(init, x);
      SelectedSnoc(init, last);
      SelectedSnoc(Without(init, x), last);
      assert Without(init, x) + [] == Without(init, x);
    }
  }

  // ---------------------------------------------------------------------------
  // The newest full snapshot guards what is deleted
  // ---------------------------------------------------------------------------

  /** At position `p` is the newest full snapshot of the collector's list, and nothing the
      collector may delete comes after it. */
  ghost predicate GuardAt(listing: seq<Snapshot>, list: seq<Snapshot>, p: nat)
    requires LastFull(list) >= 0
  {
    && p < |listing|
    && listing[p] == list[LastFull(list)]
    && forall q :: p < q < |listing| ==> listing[q] !in list[..LastFull(list)]
  }

  ghost predicate Guarded(listing: seq<Snapshot>, list: seq<Snapshot>) {
    LastFull(list) >= 0 ==> exists p: nat :: GuardAt(listing, list, p)
  }

  lemma ArriveGuarded(listing: seq<Snapshot>, list: seq<Snapshot>, save: Save)
    requires Guarded(listing, list) && save.snapshot !in list
    ensures Guarded(Arrive(listing, save), list)
  {
    hide LastFull;
    if LastFull(list) >= 0 {
      var p: nat :| GuardAt(listing, list, p);
      var after := Arrive(listing, save);
      var p': nat := if save.position <= p then p + 1 else p;
      assert after[p'] == listing[p];
      forall q | p' < q < |after| ensures after[q] !in list[..LastFull(list)] {
        assert || after[q] == save.snapshot
               || (q - 1 < |listing| && after[q] == listing[q - 1])
               || (q < |listing| && after[q] == listing[q]);
      }
      assert GuardAt(after, list, p');
    }
  }

  lemma {:induction false} ArriveAllGuarded(listing: seq<Snapshot>, list: seq<Snapshot>, saves: seq<Save>)
    requires Guarded(listing, list) && forall i :: 0 <= i < |saves| ==> saves[i].snapshot !in list
    ensures Guarded(ArriveAll(listing, saves), list)
    decreases |saves|
  {
    hide Guarded, Arrive;
    if saves != [] {
      ArriveGuarded(listing, list, saves[0]);
      ArriveAllGuarded(Arrive(listing, saves[0]), list, saves[1..]);
    }
  }

  lemma WithoutGuarded(listing: seq<Snapshot>, list: seq<Snapshot>, x: Snapshot)
    requires Guarded(listing, list) && (LastFull(list) >= 0 ==> x != list[LastFull(list)])
    ensures Guarded(Without(listing, x), list)
  {
    hide LastFull, Without;
    if LastFull(list) >= 0 {
      var p: nat :| GuardAt(listing, list, p);
      var a, b := listing[..p], listing[p + 1..];
      assert listing == a + [listing[p]] + b;
      WithoutConcat(a + [listing[p]], b, x);
      WithoutConcat(a, [listing[p]], x);
      WithoutAbsent([listing[p]], x);
      WithoutMembers(b, x);
      var after := Without(listing, x);
      var p' := |Without(a, x)|;
      assert after[p'] == listing[p];
      forall q | p' < q < |after| ensures after[q] !in list[..LastFull(list)] {
        assert after[q] == Without(b, x)[q - p' - 1];
        assert after[q] in b;
      }
      assert GuardAt(after, list, p');
    }
  }

  /** Deleting something older than the newest full snapshot of the list leaves the selected
      chain as it is, whatever was saved in the meantime. */
  lemma DeleteIsHarmless(listing: seq<Snapshot>, list: seq<Snapshot>, x: Snapshot)
    requires Guarded(listing, list) && LastFull(list) >= 0 && x in list[..LastFull(list)] && x != list[LastFull(list)]
    ensures Selected(Without(listing, x)) == Selected(listing)
  {
    hide LastFull, Without, Selected;
    var p: nat :| GuardAt(listing, list, p);
    var a, b := listing[..p], listing[p..];
    assert listing == a + b;
    assert x !in b;
    WithoutConcat(a, b, x);
    WithoutAbsent(b, x);
    assert list[LastFull(list)].IsFull() by { LastFullIsFull(list); }
    SelectedSuffix(a, b);
    SelectedSuffix(Without(a, x), b);
  }

  lemma LastFullIsFull(list: seq<Snapshot>)
    ensures LastFull(list) >= 0 ==> list[LastFull(list)].IsFull()
  {
  }

  /** Just after listing, the newest full snapshot is the guard. */
  lemma ListedIsGuarded(listing: seq<Snapshot>)
    requires Distinct(listing)
    ensures Guarded(listing, WithoutChunks(listing))
  {
    hide LastFull, WithoutChunks;
    var k := LastFull(listing);
    var list := WithoutChunks(listing);
    LastFullIsFull(listing);
    LastFullIsFull(list);
    if k >= 0 {
      var a, b := listing[..k], listing[k + 1..];
      assert listing == a + [listing[k]] + b;
      WithoutChunksConcat(a + [listing[k]], b);
      WithoutChunksConcat(a, [listing[k]]);
      SingleWithoutChunks(listing[k]);
      LastFullIsLast(listing);
      LastFullWithoutChunks(listing, |WithoutChunks(a)|);
      WithoutChunksMembers(a);
      assert list[..LastFull(list)] == WithoutChunks(a);
      assert GuardAt(listing, list, k);
    } else {
      NoFullWithoutChunks(listing);
    }
  }

  lemma LastFullIsLast(list: seq<Snapshot>)
    ensures forall i :: LastFull(list) < i < |list| ==> !list[i].IsFull()
  {
  }

  lemma NoFullWithoutChunks(listing: seq<Snapshot>)
    requires LastFull(listing) < 0
    ensures LastFull(WithoutChunks(listing)) < 0
  {
    hide WithoutChunks;
    WithoutChunksMembers(listing);
  }

  lemma LastFullWithoutChunks(listing: seq<Snapshot>, k: nat)
    requires LastFull(listing) >= 0 && k == |WithoutChunks(listing[..LastFull(listing)])|
    ensures LastFull(WithoutChunks(listing)) == k
  {
    hide WithoutChunks;
    var m := LastFull(listing);
    var a, b := listing[..m], listing[m + 1..];
    assert listing == a + [listing[m]] + b;
    WithoutChunksConcat(a + [listing[m]], b);
    WithoutChunksConcat(a, [listing[m]]);
    SingleWithoutChunks(listing[m]);
    var list := WithoutChunks(listing);
    assert list[k] == listing[m];
    WithoutChunksMembers(b);
    forall i | k < i < |list| ensures !list[i].IsFull() {
      assert list[i] == WithoutChunks(b)[i - k - 1];
      assert list[i] in b;
    }
  }

  lemma {:induction false} WithoutChunksDistinct(list: seq<Snapshot>)
    requires Distinct(list)
    ensures Distinct(WithoutChunks(list))
  {
    if list != [] {
      var init, x := list[..|list| - 1], list[|list| - 1];
      WithoutChunksDistinct(init);
      WithoutChunksMembers(init);
      assert x !in init;
    }
  }

  lemma {:induction false} WithoutDistinct(listing: seq<Snapshot>, x: Snapshot)
    requires Distinct(listing)
    ensures Distinct(Without(listing, x))
  {
    if listing != [] {
      var init := listing[..|listing| - 1];
      WithoutDistinct(init, x);
      WithoutMembers(init, x);
      assert listing[|listing| - 1] !in init;
    }
  }

  lemma {:induction false} WithoutSorted(listing: seq<Snapshot>, x: Snapshot)
    requires Sorted(listing)
    ensures Sorted(Without(listing, x))
  {
    hide Less;
    if listing != [] {
      var init, last := listing[..|listing| - 1], listing[|listing| - 1];
      WithoutSorted(init, x);
      WithoutMembers(init, x);
      var left := Without(init, x);
      forall i | 0 <= i < |left| && !left[i].isChunk && !last.isChunk ensures !Less(last, left[i]) {
        assert left[i] in init;
        var j :| 0 <= j < |init| && init[j] == left[i];
        assert listing[j] == left[i];
      }
    }
  }

  lemma {:induction false} ChunksAfter(a: seq<Snapshot>, b: seq<Snapshot>)
    requires forall i :: 0 <= i < |b| ==> b[i].isChunk
    ensures Selected(a + b) == Selected(a)
  {
    hide Selected;
    if b == [] {
      assert a + b == a;
    } else {
      var init, last := b[..|b| - 1], b[|b| - 1];
      assert a + b == (a + init) + [last];
      ChunksAfter(a, init);
      SelectedSnoc(a + init, last);
    }
  }

  lemma NotAfter(list: seq<Snapshot>, i: nat, k: nat)
    requires Distinct(list) && i < k < |list|
    ensures list[i] !in list[k + 1..]
  {
    var rest := list[k + 1..];
    forall j | 0 <= j < |rest| ensures rest[j] != list[i] {
      assert rest[j] == list[k + 1 + j];
    }
  }

  lemma OnlyThere(list: seq<Snapshot>, i: nat)
    requires Distinct(list) && i < |list|
    ensures list[i] !in list[..i] && list[i] !in list[i + 1..]
  {
    var rest := list[i + 1..];
    forall j | 0 <= j < |rest| ensures rest[j] != list[i] {
      assert rest[j] == list[i + 1 + j];
    }
  }

  lemma SplitAt(list: seq<Snapshot>, i: nat)
    requires i < |list|
    ensures list == (list[..i] + [list[i]]) + list[i + 1..]
  {
  }

  /** Taking one snapshot out of a listing without repetitions. */
  lemma WithoutAt(listing: seq<Snapshot>, i: nat)
    requires Distinct(listing) && i < |listing|
    ensures Without(listing, listing[i]) == listing[..i] + listing[i + 1..]
  {
    hide Without, Distinct;
    OnlyThere(listing, i);
    SplitAt(listing, i);
    WithoutBetween(listing[..i], listing[i], listing[i + 1..]);
  }

  lemma WithoutBetween(a: seq<Snapshot>, x: Snapshot, b: seq<Snapshot>)
    requires x !in a && x !in b
    ensures Without((a + [x]) + b, x) == a + b
  {
    hide Without;
    WithoutConcat(a + [x], b, x);
    WithoutConcat(a, [x], x);
    WithoutOne(x, x);
    WithoutAbsent(a, x);
    WithoutAbsent(b, x);
    assert a + [] == a;
  }

  // ---------------------------------------------------------------------------
  // What is left of a list
  // ---------------------------------------------------------------------------

  /** The snapshots of `list` that are still in `listing`, in the order of `list`. */
  function Remaining(list: seq<Snapshot>, listing: seq<Snapshot>): seq<Snapshot> {
    if list == [] then []
    else
      var init, last := list[..|list| - 1], list[|list| - 1];
      Remaining(init, listing) + (if last in listing then [last] else [])
  }

  lemma {:induction false} AllRemain(list: seq<Snapshot>, listing: seq<Snapshot>)
    requires forall s :: s in list ==> s in listing
    ensures Remaining(list, listing) == list
  {
    if list != [] {
      assert list == list[..|list| - 1] + [list[|list| - 1]];
      AllRemain(list[..|list| - 1], listing);
    }
  }

  lemma {:induction false} RemainingWithout(list: seq<Snapshot>, listing: seq<Snapshot>, x: Snapshot)
    ensures Remaining(list, Without(listing, x)) == Without(Remaining(list, listing), x)
  {
    WithoutMembers(listing, x);
    hide Without;
    if list == [] {
      WithoutNothing(x);
    } else {
      var init, last := list[..|list| - 1], list[|list| - 1];
      RemainingWithout(init, listing, x);
      WithoutConcat(Remaining(init, listing), if last in listing then [last] else [], x);
      WithoutNothing(x);
      WithoutOne(last, x);
    }
  }

  lemma WithoutNothing(x: Snapshot)
    ensures Without([], x) == []
  {
  }

  lemma WithoutOne(y: Snapshot, x: Snapshot)
    ensures Without([y], x) == if y == x then [] else [y]
  {
    assert [y][..0] == [];
  }

  /** Deleting and dropping chunks commute. */
  lemma {:induction false} WithoutChunksWithout(listing: seq<Snapshot>, x: Snapshot)
    ensures WithoutChunks(Without(listing, x)) == Without(WithoutChunks(listing), x)
  {
    if listing != [] {
      var init, last := listing[..|listing| - 1], listing[|listing| - 1];
      WithoutChunksWithout(init, x);
      SingleWithoutChunks(last);
      WithoutOne(last, x);
      NoChunksInNothing();
      WithoutChunksConcat(Without(init, x), if last == x then [] else [last]);
      WithoutConcat(WithoutChunks(init), if last.isChunk then [] else [last], x);
      WithoutNothing(x);
    }
  }

  lemma {:induction false} RemainingMembers(list: seq<Snapshot>, listing: seq<Snapshot>)
    ensures forall s :: s in Remaining(list, listing) <==> s in list && s in listing
  {
    if list != [] {
      assert list == list[..|list| - 1] + [list[|list| - 1]];
      RemainingMembers(list[..|list| - 1], listing);
    }
  }
}

/** The log of what the garbage collector tries to delete, what it explains, and in which order
    deletions are tried (pkg/snapshot/snapshotter/garbagecollector.go). */
module DeletionLog {
  import opened SnapTypes
  import opened Selection
  import opened Listings
  import opened RetentionPass

  datatype Outcome = Deleted | Immutable | Failed

  /** What the collector does not control: the time and the saves that happen before its n-th
      attempt to delete something, how that attempt ends, and the time at its n-th other look at
      the clock. */
  datatype World = World(clock: nat -> int, saves: nat -> seq<Save>, outcome: nat -> Outcome, reading: nat -> int)

  datatype Attempt = Attempt(target: Snapshot, outcome: Outcome)

  // ---------------------------------------------------------------------------
  // The listing that a log explains
  // ---------------------------------------------------------------------------

  /** The listing when the attempt after these is made. */
  function ListingBefore(world: World, start: seq<Snapshot>, log: seq<Attempt>): seq<Snapshot> {
    ArriveAll(ListingAfter(world, start, log), world.saves(|log|))
  }

  /** The listing that the saves of the others and the logged attempts lead to. */
  function ListingAfter(world: World, start: seq<Snapshot>, log: seq<Attempt>): seq<Snapshot> {
    if log == [] then start
    else
      var init, last := log[..|log| - 1], log[|log| - 1];
      var before := ArriveAll(ListingAfter(world, start, init), world.saves(|init|));
      if last.outcome.Deleted? then Without(before, last.target) else before
  }

  /** Nothing is deleted within its immutability period, and otherwise the store decides. */
  predicate HonestAttempt(world: World, n: nat, a: Attempt) {
    a.outcome == if a.target.IsDeletable(world.clock(n)) then world.outcome(n) else Immutable
  }

  /** The attempt after `log` leaves the selected chain as it is. */
  predicate HarmlessAttempt(world: World, start: seq<Snapshot>, log: seq<Attempt>, a: Attempt) {
    a.outcome.Deleted? ==>
      var before := ListingBefore(world, start, log); Selected(Without(before, a.target)) == Selected(before)
  }

  ghost predicate GoodLog(world: World, start: seq<Snapshot>, log: seq<Attempt>) {
    forall n :: 0 <= n < |log| ==> HonestAttempt(world, n, log[n]) && HarmlessAttempt(world, start, log[..n], log[n])
  }

  function Deletions(log: seq<Attempt>): nat {
    if log == [] then 0 else Deletions(log[..|log| - 1]) + if log[|log| - 1].outcome.Deleted? then 1 else 0
  }

  /** Those of snapshots, which is what a run reports. */
  function SnapshotDeletions(log: seq<Attempt>): nat {
    if log == [] then 0
    else
      var last := log[|log| - 1];
      SnapshotDeletions(log[..|log| - 1]) + if last.outcome.Deleted? && !last.target.isChunk then 1 else 0
  }

  lemma {:induction false} DeletionsSince(log: seq<Attempt>, k: nat)
    requires k <= |log|
    ensures (forall n :: k <= n < |log| ==> log[n].target.isChunk) ==>
              SnapshotDeletions(log) == SnapshotDeletions(log[..k])
    ensures (forall n :: k <= n < |log| ==> !log[n].target.isChunk) ==>
              SnapshotDeletions(log) - SnapshotDeletions(log[..k]) == Deletions(log) - Deletions(log[..k])
  {
    if k == |log| {
      assert log[..k] == log;
    } else {
      var init := log[..|log| - 1];
      assert init[..k] == log[..k];
      DeletionsSince(init, k);
      assert forall n :: 0 <= n < |init| ==> init[n] == log[n];
    }
  }

  lemma LogSnoc(world: World, start: seq<Snapshot>, log: seq<Attempt>, a: Attempt)
    ensures ListingAfter(world, start, log + [a]) ==
            if a.outcome.Deleted? then Without(ListingBefore(world, start, log), a.target)
            else ListingBefore(world, start, log)
    ensures Deletions(log + [a]) == Deletions(log) + if a.outcome.Deleted? then 1 else 0
    ensures GoodLog(world, start, log) && HonestAttempt(world, |log|, a) && HarmlessAttempt(world, start, log, a) ==>
            GoodLog(world, start, log + [a])
  {
    hide ArriveAll, Without, Selected;
    var longer := log + [a];
    assert longer[..|log|] == log;
    forall n | 0 <= n < |log| ensures longer[..n] == log[..n] && longer[n] == log[n] {
    }
  }

  /** Within its immutability period a snapshot is left alone, and otherwise the store decides. */
  predicate PeriodRespected(world: World, n: nat, a: Attempt) {
    var expiry := a.target.immutabilityExpiryTime;
    a.outcome == if expiry.None? || world.clock(n) > expiry.value then world.outcome(n) else Immutable
  }

  lemma PeriodsAreRespected(world: World, start: seq<Snapshot>, log: seq<Attempt>)
    requires GoodLog(world, start, log)
    ensures forall n :: 0 <= n < |log| ==> PeriodRespected(world, n, log[n])
    ensures forall n :: 0 <= n < |log| && log[n].outcome.Deleted? ==>
              var expiry := log[n].target.immutabilityExpiryTime; expiry.Some? ==> world.clock(n) > expiry.value
  {
    hide HarmlessAttempt;
  }

  /** A snapshot that nobody saves again disappears exactly by a deletion that is logged. */
  lemma {:induction false} MembersByLog(world: World, start: seq<Snapshot>, log: seq<Attempt>, k: nat, s: Snapshot)
    requires k <= |log| && NeverSaved(world, s)
    ensures s in ListingAfter(world, start, log) <==>
            && s in ListingAfter(world, start, log[..k])
            && !exists n :: k <= n < |log| && log[n].target == s && log[n].outcome.Deleted?
  {
    hide Without, ArriveAll, NeverSaved;
    if k == |log| {
      assert log[..k] == log;
    } else {
      var init, last := log[..|log| - 1], log[|log| - 1];
      assert init[..k] == log[..k];
      MembersByLog(world, start, init, k, s);
      assert forall n :: 0 <= n < |init| ==> init[n] == log[n];
      var arrived := ArriveAll(ListingAfter(world, start, init), world.saves(|init|));
      ArrivedMember(world, start, init, s);
      WithoutMembers(arrived, last.target);
    }
  }

  lemma ArrivedMember(world: World, start: seq<Snapshot>, log: seq<Attempt>, s: Snapshot)
    requires NeverSaved(world, s)
    ensures var listing := ListingAfter(world, start, log);
            s in ArriveAll(listing, world.saves(|log|)) <==> s in listing
  {
    hide ArriveAll, ListingAfter;
    ArriveAllMembers(ListingAfter(world, start, log), world.saves(|log|), s);
  }

  ghost predicate NoSaves(world: World) {
    forall n: nat :: world.saves(n) == []
  }

  /** Nobody else saving anything, all deletions together leave the selected chain as it was. */
  lemma {:induction false} SelectionKept(world: World, start: seq<Snapshot>, log: seq<Attempt>, k: nat)
    requires GoodLog(world, start, log) && NoSaves(world) && k <= |log|
    ensures Selected(ListingAfter(world, start, log)) == Selected(ListingAfter(world, start, log[..k]))
  {
    hide Selected, Without;
    if k == |log| {
      assert log[..k] == log;
    } else {
      var init := log[..|log| - 1];
      assert init[..k] == log[..k];
      assert forall n :: 0 <= n < |init| ==> init[..n] == log[..n] && init[n] == log[n];
      SelectionKept(world, start, init, k);
      assert HarmlessAttempt(world, start, init, log[|log| - 1]);
    }
  }

  /** Then what is left, chunks aside, is what is left of the list at the beginning. */
  lemma {:induction false} ListingIsRemaining(world: World, start: seq<Snapshot>, log: seq<Attempt>, k: nat)
    requires NoSaves(world) && k <= |log|
    ensures var listing := ListingAfter(world, start, log);
            var list := WithoutChunks(ListingAfter(world, start, log[..k]));
            WithoutChunks(listing) == Remaining(list, listing)
  {
    hide Without, WithoutChunks, Remaining;
    var list := WithoutChunks(ListingAfter(world, start, log[..k]));
    if k == |log| {
      assert log[..k] == log;
      WithoutChunksMembers(ListingAfter(world, start, log));
      AllRemain(list, ListingAfter(world, start, log));
    } else {
      var init, last := log[..|log| - 1], log[|log| - 1];
      assert init[..k] == log[..k];
      ListingIsRemaining(world, start, init, k);
      var before := ListingAfter(world, start, init);
      if last.outcome.Deleted? {
        WithoutChunksWithout(before, last.target);
        RemainingWithout(list, before, last.target);
      }
    }
  }

  lemma {:induction false} StaysDistinct(world: World, start: seq<Snapshot>, log: seq<Attempt>, k: nat)
    requires NoSaves(world) && k <= |log| && Distinct(ListingAfter(world, start, log[..k]))
    ensures Distinct(ListingAfter(world, start, log))
  {
    hide Without, Distinct;
    if k == |log| {
      assert log[..k] == log;
    } else {
      var init := log[..|log| - 1];
      assert init[..k] == log[..k];
      StaysDistinct(world, start, init, k);
      WithoutDistinct(ListingAfter(world, start, init), log[|log| - 1].target);
    }
  }

  // ---------------------------------------------------------------------------
  // What is tried
  // ---------------------------------------------------------------------------

  /** Nobody saves this snapshot again. */
  ghost predicate NeverSaved(world: World, s: Snapshot) {
    forall n, i :: 0 <= i < |world.saves(n)| ==> world.saves(n)[i].snapshot != s
  }

  /** A new snapshot is not one of the list. */
  ghost predicate NewSaves(world: World, list: seq<Snapshot>) {
    forall s :: s in list ==> NeverSaved(world, s)
  }

  /** A chunk of a snapshot that has been uploaded. */
  predicate Collectable(s: Snapshot, prevLastRevision: int) {
    s.isChunk && prevLastRevision != 0 && s.startRevision <= prevLastRevision
  }

  /** From the n-th attempt on, all attempts to delete a snapshot of the list have succeeded. */
  ghost predicate DeletesSucceed(log: seq<Attempt>, n: nat, list: seq<Snapshot>) {
    forall k :: n <= k < |log| && log[k].target in list ==> log[k].outcome.Deleted?
  }

  lemma SucceedParts(log: seq<Attempt>, log': seq<Attempt>, n: nat, list: seq<Snapshot>)
    requires n <= |log| && log <= log' && DeletesSucceed(log', n, list)
    ensures DeletesSucceed(log, n, list) && DeletesSucceed(log', |log|, list)
  {
  }

  lemma SucceedLast(log: seq<Attempt>, a: Attempt, n: nat, list: seq<Snapshot>)
    requires n <= |log|
    ensures DeletesSucceed(log + [a], n, list) <==>
            DeletesSucceed(log, n, list) && (a.target in list ==> a.outcome.Deleted?)
  {
    assert (log + [a])[|log|] == a;
    assert forall k :: 0 <= k < |log| ==> (log + [a])[k] == log[k];
  }

  /** All attempts from the n-th on are made on outdated deltas of the stream. */
  ghost predicate OnlyOutdated(log: seq<Attempt>, n: nat, stream: seq<Snapshot>, cutoff: int) {
    forall k :: n <= k < |log| ==> log[k].target in stream && Outdated(log[k].target, cutoff)
  }

  /** All attempts from the n-th on are made on chunks of uploaded snapshots. */
  ghost predicate OnlyChunks(log: seq<Attempt>, n: nat, snapList: seq<Snapshot>, prevLastRevision: int) {
    forall k :: n <= k < |log| ==> log[k].target in snapList && Collectable(log[k].target, prevLastRevision)
  }

  /** All attempts from the n-th on are made on snapshots of the list. */
  ghost predicate OnlyListed(log: seq<Attempt>, n: nat, list: seq<Snapshot>) {
    forall k :: n <= k < |log| ==> log[k].target in list
  }

  lemma ListedParts(log: seq<Attempt>, log': seq<Attempt>, n: nat, list: seq<Snapshot>)
    requires OnlyListed(log, n, list) && log <= log' && OnlyListed(log', |log|, list)
    ensures OnlyListed(log', n, list)
  {
    assert forall k :: n <= k < |log| ==> log'[k] == log[k];
  }

  /** From the n-th attempt on, a chunk of the listing is tried if and only if the store is not
      Swift and the snapshot that it is a part of has been uploaded. */
  ghost predicate ChunksTried(log: seq<Attempt>, n: nat, listing: seq<Snapshot>, swift: bool, prevLastRevision: int) {
    forall s :: s in listing && s.isChunk ==>
      (Tried(log, n, s) <==> !swift && prevLastRevision != 0 && s.startRevision <= prevLastRevision)
  }

  ghost predicate Tried(log: seq<Attempt>, n: nat, s: Snapshot) {
    exists k :: n <= k < |log| && log[k].target == s
  }

  lemma TriedLast(log: seq<Attempt>, a: Attempt, n: nat)
    requires n <= |log|
    ensures forall s :: Tried(log + [a], n, s) <==> Tried(log, n, s) || a.target == s
  {
    assert (log + [a])[|log|] == a;
    forall s | Tried(log, n, s) ensures Tried(log + [a], n, s) {
      var k :| n <= k < |log| && log[k].target == s;
      assert (log + [a])[k] == log[k];
    }
  }

  lemma TriedAreChunks(log: seq<Attempt>, n: nat, snapList: seq<Snapshot>, prevLastRevision: int)
    requires OnlyChunks(log, n, snapList, prevLastRevision)
    requires forall j :: 0 <= j < |snapList| && Collectable(snapList[j], prevLastRevision) ==>
               Tried(log, n, snapList[j])
    ensures ChunksTried(log, n, snapList, false, prevLastRevision)
  {
  }

  // ---------------------------------------------------------------------------
  // Failed deletions
  // ---------------------------------------------------------------------------

  /** How many attempts from the n-th on have failed. */
  function Failures(log: seq<Attempt>, n: nat): nat {
    if |log| <= n then 0
    else Failures(log[..|log| - 1], n) + if log[|log| - 1].outcome.Failed? then 1 else 0
  }

  lemma FailuresLast(log: seq<Attempt>, a: Attempt, n: nat)
    requires n <= |log|
    ensures Failures(log + [a], n) == Failures(log, n) + if a.outcome.Failed? then 1 else 0
  {
    assert (log + [a])[..|log|] == log;
  }

  lemma {:induction false} NoFailures(log: seq<Attempt>, n: nat)
    requires Failures(log, n) == 0
    ensures forall k :: n <= k < |log| ==> !log[k].outcome.Failed?
  {
    if |log| > n {
      var init := log[..|log| - 1];
      NoFailures(init, n);
      assert forall k :: 0 <= k < |init| ==> init[k] == log[k];
    }
  }

  /** If the base is tried, deleting none of its deltas has failed. */
  ghost predicate BaseWaits(log: seq<Attempt>, n: nat, base: Snapshot, deltas: seq<Snapshot>) {
    Tried(log, n, base) ==> forall k :: n <= k < |log| && log[k].target in deltas ==> !log[k].outcome.Failed?
  }

  /** Attempts on others do not matter, before or after. */
  lemma OthersDoNotMatter(was: seq<Attempt>, log: seq<Attempt>, n: nat, base: Snapshot, deltas: seq<Snapshot>,
                          others: seq<Snapshot>)
    requires n <= |was| && was <= log && base !in others && forall s :: s in deltas ==> s !in others
    ensures BaseWaits(was, n, base, deltas) && OnlyListed(log, |was|, others) ==> BaseWaits(log, n, base, deltas)
    ensures OnlyListed(was, n, others) && BaseWaits(log, |was|, base, deltas) ==> BaseWaits(log, n, base, deltas)
  {
    assert forall k :: 0 <= k < |was| ==> log[k] == was[k];
  }

  lemma PartsDiffer(list: seq<Snapshot>, a: nat, b: nat, c: nat, d: nat)
    requires Distinct(list) && a <= b <= |list| && c <= d <= |list| && (b <= c || d <= a)
    ensures forall s :: s in list[a..b] ==> s !in list[c..d]
  {
    forall s | s in list[a..b] ensures s !in list[c..d] {
      var i :| a <= i < b && list[i] == s;
      forall j | c <= j < d ensures list[j] != s {
        assert i < j || j < i;
      }
    }
  }

  /** The streams from entry `a` of the index list to entry `b` have each been handled so. */
  ghost predicate StreamsWait(log: seq<Attempt>, n: nat, list: seq<Snapshot>, full: seq<nat>, a: nat, b: nat) {
    forall k :: a <= k < b && k + 1 < |full| && full[k] < full[k + 1] <= |list| && list[full[k]].IsFull() ==>
      BaseWaits(log, n, list[full[k]], list[full[k] + 1..full[k + 1]])
  }

  /** These streams, and nothing else. */
  ghost predicate Handled(log: seq<Attempt>, n: nat, list: seq<Snapshot>, full: seq<nat>, a: nat, b: nat) {
    && a <= b < |full| && full[a] <= full[b] <= |list|
    && OnlyListed(log, n, list[full[a]..full[b]]) && StreamsWait(log, n, list, full, a, b)
  }

  lemma HandledNothing(log: seq<Attempt>, list: seq<Snapshot>, full: seq<nat>, a: nat)
    requires FullUpTo(list, full, |list|) && a < |full|
    ensures Handled(log, |log|, list, full, a, a)
  {
  }

  /** One more stream, before or after those handled so far. */
  lemma StreamHandled(was: seq<Attempt>, log: seq<Attempt>, n: nat, list: seq<Snapshot>, full: seq<nat>, a: nat, b: nat,
                      k: nat)
    requires Distinct(list) && FullUpTo(list, full, |list|) && list != []
    requires n <= |was| && was <= log && k + 1 < |full| && (k == b || k + 1 == a)
    requires Handled(was, n, list, full, a, b) && full[k] < full[k + 1] < |list|
    requires OnlyListed(log, |was|, list[full[k]..full[k + 1]]) && StreamsWait(log, |was|, list, full, k, k + 1)
    ensures Handled(log, n, list, full, if k < a then k else a, if k < a then b else k + 1)
  {
    FullOrder(list, full);
    hide FullUpTo, Distinct, BaseWaits, OnlyListed;
    var lo, hi := if k < a then k else a, if k < a then b else k + 1;
    forall j | lo <= j < hi && full[j] < full[j + 1] <= |list| && list[full[j]].IsFull()
      ensures BaseWaits(log, n, list[full[j]], list[full[j] + 1..full[j + 1]])
    {
      if j == k {
        StreamSince(was, log, n, list, full[j], full[j + 1], full[a], full[b]);
      } else {
        assert full[j + 1] <= full[k] || full[k + 1] <= full[j];
        StreamSince(was, log, n, list, full[j], full[j + 1], full[k], full[k + 1]);
      }
    }
    hide StreamsWait;
    ListedRange(was, log, n, list, full[a], full[b], full[k], full[k + 1]);
  }

  /** Two adjacent parts of the list. */
  lemma ListedRange(was: seq<Attempt>, log: seq<Attempt>, n: nat, list: seq<Snapshot>, a: nat, b: nat, c: nat, d: nat)
    requires n <= |was| && was <= log && a <= b <= |list| && c <= d <= |list| && (b == c || d == a)
    requires OnlyListed(was, n, list[a..b]) && OnlyListed(log, |was|, list[c..d])
    ensures var lo, hi := if d == a then c else a, if d == a then b else d; OnlyListed(log, n, list[lo..hi])
  {
    hide OnlyListed;
    var lo, hi := if d == a then c else a, if d == a then b else d;
    PartIn(list, a, b, lo, hi);
    PartIn(list, c, d, lo, hi);
    ListedIn(was, n, list[a..b], list[lo..hi]);
    ListedIn(log, |was|, list[c..d], list[lo..hi]);
    ListedParts(was, log, n, list[lo..hi]);
  }

  lemma StreamSince(was: seq<Attempt>, log: seq<Attempt>, n: nat, list: seq<Snapshot>, lo: nat, hi: nat, a: nat, b: nat)
    requires Distinct(list) && n <= |was| && was <= log && lo < hi <= |list| && a <= b <= |list| && (hi <= a || b <= lo)
    ensures var base, deltas, others := list[lo], list[lo + 1..hi], list[a..b];
            && (BaseWaits(was, n, base, deltas) && OnlyListed(log, |was|, others) ==> BaseWaits(log, n, base, deltas))
            && (OnlyListed(was, n, others) && BaseWaits(log, |was|, base, deltas) ==> BaseWaits(log, n, base, deltas))
  {
    hide Distinct, BaseWaits, OnlyListed;
    PartsDiffer(list, lo, hi, a, b);
    assert list[lo..hi][0] == list[lo] && list[lo + 1..hi] == list[lo..hi][1..];
    OthersDoNotMatter(was, log, n, list[lo], list[lo + 1..hi], list[a..b]);
  }

  lemma PartIn(list: seq<Snapshot>, a: nat, b: nat, lo: nat, hi: nat)
    requires lo <= a <= b <= hi <= |list|
    ensures forall s :: s in list[a..b] ==> s in list[lo..hi]
  {
    forall s | s in list[a..b] ensures s in list[lo..hi] {
      var i :| a <= i < b && list[i] == s;
      assert list[lo..hi][i - lo] == s;
    }
  }

  lemma ListedIn(log: seq<Attempt>, n: nat, part: seq<Snapshot>, list: seq<Snapshot>)
    requires OnlyListed(log, n, part) && forall s :: s in part ==> s in list
    ensures OnlyListed(log, n, list)
  {
  }

  /** There is no full snapshot between the two positions. */
  ghost predicate SameStream(list: seq<Snapshot>, i: nat, j: nat) {
    i < j < |list| && list[i].IsFull() && forall m :: i < m <= j ==> !list[m].IsFull()
  }

  /** A full snapshot is tried only if deleting none of the deltas on top of it has failed. */
  ghost predicate BasesWait(log: seq<Attempt>, n: nat, list: seq<Snapshot>) {
    forall i: nat, j: nat :: SameStream(list, i, j) && Tried(log, n, list[i]) ==>
      forall k :: n <= k < |log| && log[k].target == list[j] ==> !log[k].outcome.Failed?
  }

  lemma NewestIsNotTried(log: seq<Attempt>, n: nat, list: seq<Snapshot>, i: nat)
    requires Distinct(list) && i < |list| && OnlyListed(log, n, list[..i])
    ensures !Tried(log, n, list[i])
  {
    hide Distinct;
    PartsDiffer(list, i, |list|, 0, i);
    assert list[i..][0] == list[i] && list[..i] == list[0..i];
  }

  lemma AllStreamsWait(log: seq<Attempt>, n: nat, list: seq<Snapshot>, full: seq<nat>)
    requires Distinct(list) && FullUpTo(list, full, |list|) && Handled(log, n, list, full, 0, |full| - 1)
    ensures OnlyListed(log, n, list) && BasesWait(log, n, list)
  {
    var last := full[|full| - 1];
    assert list[0..last] == list[..last] && list[0..] == list;
    PartIn(list, 0, last, 0, |list|);
    if list != [] { NewestIsNotTried(log, n, list, last); }
    forall i: nat, j: nat | SameStream(list, i, j) && Tried(log, n, list[i])
      ensures forall k :: n <= k < |log| && log[k].target == list[j] ==> !log[k].outcome.Failed?
    {
      var k := IndexOfFull(list, full, i);
      if k < |full| - 1 {
        assert list[full[k + 1]].IsFull() && full[k] < full[k + 1];
        assert list[full[k] + 1..full[k + 1]][j - i - 1] == list[j];
        assert BaseWaits(log, n, list[full[k]], list[full[k] + 1..full[k + 1]]);
      }
    }
  }

  /** After the outdated deltas of a stream, the base has not been tried. */
  lemma BaseNotTried(log: seq<Attempt>, n: nat, list: seq<Snapshot>, lo: nat, hi: nat, cutoff: int)
    requires lo < hi <= |list| && OnlyOutdated(log, n, list[lo..hi], cutoff)
    ensures OnlyListed(log, n, list[lo..hi])
    ensures list[lo].IsFull() ==> BaseWaits(log, n, list[lo], list[lo + 1..hi])
  {
  }

  /** Nothing has failed, and the base comes last. */
  lemma BaseAfterDeltas(log: seq<Attempt>, a: Attempt, n: nat, list: seq<Snapshot>, lo: nat, hi: nat)
    requires Distinct(list) && lo < hi <= |list| && n <= |log| && a.target == list[lo]
    requires Failures(log, n) == 0 && OnlyListed(log, n, list[lo..hi])
    ensures OnlyListed(log + [a], n, list[lo..hi]) && BaseWaits(log + [a], n, list[lo], list[lo + 1..hi])
  {
    hide Distinct, Failures;
    NoFailures(log, n);
    PartsDiffer(list, lo, lo + 1, lo + 1, hi);
    assert list[lo..lo + 1][0] == list[lo] && list[lo..hi][0] == list[lo];
    assert forall k :: 0 <= k < |log| ==> (log + [a])[k] == log[k];
  }

  lemma NoFailuresYet(log: seq<Attempt>)
    ensures Failures(log, |log|) == 0
  {
  }
}

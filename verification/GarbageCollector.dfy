/** Deleting old snapshots while the snapshotter keeps saving new ones
    (pkg/snapshot/snapshotter/garbagecollector.go). */
module GarbageCollector {
  import opened SnapTypes
  import opened Selection
  import opened Retention
  import opened Listings
  import opened RetentionPass
  import opened DeletionLog

  const DELTA_SNAPSHOT_GC_ERROR_THRESHOLD := 5

  /** The stream of a position: the last entry of the index list that is not after it. */
  function StreamAt(full: seq<nat>, i: nat): int {
    if |full| <= 1 || full[|full| - 1] <= i then |full| - 1 else StreamAt(full[..|full| - 1], i)
  }

  /** The look at the clock that decides which deltas of the k-th stream are outdated. The limit
      policy goes from the oldest stream to the newest, the exponential policy looks at the clock
      once before it goes the other way. */
  function ReadingOf(policy: Policy, from: nat, full: seq<nat>, k: int): int {
    if policy.Exponential? then from + |full| - 1 - k else from + k
  }

  /** The time before which the delta at a position is outdated. */
  function Cutoffs(world: World, from: nat, policy: Policy, retention: int, list: seq<Snapshot>, full: seq<nat>)
    : (cutoffs: seq<int>)
    ensures |cutoffs| == |list|
  {
    seq(|list|, i requires 0 <= i =>
      var m := ReadingOf(policy, from, full, StreamAt(full, i));
      if m >= 0 then world.reading(m) - retention else 0)
  }

  lemma {:induction false} StreamOfPosition(full: seq<nat>, k: nat, i: nat)
    requires k + 1 < |full| && full[k] <= i < full[k + 1]
    requires forall j, k :: 0 <= j < k < |full| ==> full[j] < full[k]
    ensures StreamAt(full, i) == k
  {
    if k + 2 < |full| {
      assert full[k + 1] < full[|full| - 1];
      StreamOfPosition(full[..|full| - 1], k, i);
    }
  }

  lemma CutoffOfStream(world: World, from: nat, policy: Policy, retention: int, list: seq<Snapshot>, full: seq<nat>,
                       k: nat)
    requires FullUpTo(list, full, |list|) && k + 1 < |full|
    ensures var cutoffs, m := Cutoffs(world, from, policy, retention, list, full), ReadingOf(policy, from, full, k);
            && m >= 0
            && forall i :: full[k] <= i < full[k + 1] && i < |list| ==> cutoffs[i] == world.reading(m) - retention
  {
    hide StreamAt;
    forall i | full[k] <= i < full[k + 1] && i < |list| ensures StreamAt(full, i) == k {
      StreamOfPosition(full, k, i);
    }
  }

  lemma DifferentPositions<T>(list: seq<T>, i: nat, j: nat)
    requires Distinct(list) && i < j < |list|
    ensures list[i] != list[j]
  {
  }

  class Collector {
    const world: World
    ghost const start: seq<Snapshot>
    var listing: seq<Snapshot>
    var ticks: nat
    var readings: nat
    ghost var log: seq<Attempt>

    constructor (world: World, listing: seq<Snapshot>)
      ensures this.world == world && this.listing == this.start == listing && log == [] && readings == 0 && Explained()
    {
      this.world, this.listing, this.start, ticks, readings, log := world, listing, listing, 0, 0, [];
    }

    method Now() returns (now: int)
      modifies `readings
      ensures now == world.reading(old(readings)) && readings == old(readings) + 1
    {
      now, readings := world.reading(readings), readings + 1;
    }

    /** The listing is what the log explains, and the log is honest and harmless. */
    ghost predicate Explained()
      reads `listing, `ticks, `log
    {
      ticks == |log| && listing == ListingAfter(world, start, log) && GoodLog(world, start, log)
    }

    ghost predicate Valid(list: seq<Snapshot>)
      reads `listing, `ticks, `log
    {
      Explained() && NewSaves(world, list) && Distinct(list) && Guarded(listing, list)
    }

    lemma ListIsDistinct(list: seq<Snapshot>)
      requires Valid(list)
      ensures Distinct(list)
    {
    }

    /** The check of the immutability period followed by the delete. */
    method TryDelete(x: Snapshot) returns (outcome: Outcome)
      modifies `listing, `ticks, `log
      ensures var arrived := ArriveAll(old(listing), world.saves(old(ticks)));
              && ticks == old(ticks) + 1
              && outcome == (if x.IsDeletable(world.clock(old(ticks))) then world.outcome(old(ticks)) else Immutable)
              && listing == (if outcome.Deleted? then Without(arrived, x) else arrived)
              && log == old(log) + [Attempt(x, outcome)]
    {
      listing := ArriveAll(listing, world.saves(ticks));
      outcome := Immutable;
      if x.IsDeletable(world.clock(ticks)) {
        outcome := world.outcome(ticks);
        if outcome.Deleted? {
          listing := Without(listing, x);
        }
      }
      ticks, log := ticks + 1, log + [Attempt(x, outcome)];
    }

    /** Deletes a snapshot whose deletion does not change the selection. */
    method DeleteHarmless(ghost list: seq<Snapshot>, x: Snapshot) returns (outcome: Outcome)
      requires Valid(list) && (LastFull(list) >= 0 ==> x != list[LastFull(list)])
      requires var arrived := ArriveAll(listing, world.saves(ticks)); Selected(Without(arrived, x)) == Selected(arrived)
      modifies `listing, `ticks, `log
      ensures Valid(list) && log == old(log) + [Attempt(x, outcome)]
      ensures Deletions(log) == Deletions(old(log)) + if outcome.Deleted? then 1 else 0
      ensures forall y :: NeverSaved(world, y) ==>
                (y in listing <==> y in old(listing) && !(outcome.Deleted? && y == x))
    {
      hide Without, ArriveAll, LastFull, Guarded, Distinct, Selected, GoodLog, ListingAfter, Deletions;
      ghost var saves := world.saves(ticks);
      ghost var arrived := ArriveAll(listing, saves);
      ArrivedGuarded(list);
      WithoutGuarded(arrived, list, x);
      WithoutMembers(arrived, x);
      forall y | NeverSaved(world, y) ensures y in arrived <==> y in listing {
        ArriveAllMembers(listing, saves, y);
      }
      outcome := TryDelete(x);
      LogSnoc(world, start, old(log), Attempt(x, outcome));
    }

    /** Deletes a snapshot of the list that is older than its newest full snapshot. */
    method DeleteOlder(list: seq<Snapshot>, i: nat) returns (outcome: Outcome)
      requires Valid(list) && i < LastFull(list)
      modifies `listing, `ticks, `log
      ensures Valid(list) && log == old(log) + [Attempt(list[i], outcome)]
      ensures Deletions(log) == Deletions(old(log)) + if outcome.Deleted? then 1 else 0
      ensures forall j :: 0 <= j < |list| ==>
                (list[j] in listing <==> list[j] in old(listing) && !(outcome.Deleted? && j == i))
    {
      hide Without, ArriveAll, LastFull, Guarded, Distinct, Selected, Explained, NeverSaved;
      ghost var arrived := ArriveAll(listing, world.saves(ticks));
      DifferentPositions(list, i, LastFull(list));
      ArrivedGuarded(list);
      assert list[i] in list[..LastFull(list)];
      DeleteIsHarmless(arrived, list, list[i]);
      forall j | 0 <= j < |list| ensures list[j] == list[i] <==> j == i {
        if j < i { DifferentPositions(list, j, i); } else if i < j { DifferentPositions(list, i, j); }
      }
      outcome := DeleteHarmless(list, list[i]);
    }

    lemma ArrivedGuarded(list: seq<Snapshot>)
      requires Valid(list)
      ensures Guarded(ArriveAll(listing, world.saves(ticks)), list)
    {
      ArriveAllGuarded(listing, list, world.saves(ticks));
    }

    method DeleteChunk(ghost list: seq<Snapshot>, chunk: Snapshot) returns (outcome: Outcome)
      requires Valid(list) && NoChunks(list) && chunk.isChunk
      modifies `listing, `ticks, `log
      ensures Valid(list) && log == old(log) + [Attempt(chunk, outcome)]
      ensures Deletions(log) == Deletions(old(log)) + if outcome.Deleted? then 1 else 0
      ensures forall y :: NeverSaved(world, y) ==>
                (y in listing <==> y in old(listing) && !(outcome.Deleted? && y == chunk))
    {
      hide Without, ArriveAll, Guarded, Distinct, Selected, Explained, NewSaves;
      ChunkIsNotSelected(ArriveAll(listing, world.saves(ticks)), chunk);
      outcome := DeleteHarmless(list, chunk);
    }

    /** Deletes the outdated deltas of the stream `list[lo..hi]`, newest first, until five
        deletes have failed. */
    method GarbageCollectDeltaSnapshots(list: seq<Snapshot>, lo: nat, hi: nat, retention: int)
      returns (totalDeleted: nat, failed: bool)
      requires Valid(list) && lo <= hi <= LastFull(list)
      modifies `listing, `ticks, `readings, `log
      ensures Valid(list) && old(log) <= log && Deletions(log) == Deletions(old(log)) + totalDeleted
      ensures readings == old(readings) + 1
      ensures var cutoff := world.reading(old(readings)) - retention;
              && OnlyOutdated(log, |old(log)|, list[lo..hi], cutoff)
              && StreamSpared(list, lo, hi, cutoff, false, old(listing), listing)
              && (DeletesSucceed(log, |old(log)|, list) ==>
                    !failed && StreamSwept(list, lo, hi, cutoff, false, old(listing), listing))
              && (Failures(log, |old(log)|) < 5 ==>
                    forall j :: lo <= j < hi && Outdated(list[j], cutoff) ==> Tried(log, |old(log)|, list[j]))
      ensures Failures(log, |old(log)|) <= 5 && (failed <==> Failures(log, |old(log)|) > 0)
    {
      hide Guarded, Distinct, LastFull, NewSaves, Explained, Deletions, DeletesSucceed, Failures, Tried;
      NoFailuresYet(log);
      var now := Now();
      var cutoff := now - retention;
      totalDeleted, failed := 0, false;
      var errorCount := 0;
      var i := hi;
      while i > lo && errorCount < DELTA_SNAPSHOT_GC_ERROR_THRESHOLD
        invariant lo <= i <= hi && Valid(list) && old(log) <= log && readings == old(readings) + 1
        invariant Deletions(log) == Deletions(old(log)) + totalDeleted
        invariant OnlyOutdated(log, |old(log)|, list[lo..hi], cutoff)
        invariant (failed <==> errorCount > 0) && errorCount == Failures(log, |old(log)|) <= 5
        invariant forall j :: i <= j < hi && Outdated(list[j], cutoff) ==> Tried(log, |old(log)|, list[j])
        invariant StreamSpared(list, i, hi, cutoff, false, old(listing), listing)
        invariant DeletesSucceed(log, |old(log)|, list) ==>
                    errorCount == 0 && StreamSwept(list, i, hi, cutoff, false, old(listing), listing)
      {
        i := i - 1;
        if Outdated(list[i], cutoff) {
          assert list[lo..hi][i - lo] == list[i];
          ghost var before := log;
          var outcome := DeleteOlder(list, i);
          SucceedLast(before, Attempt(list[i], outcome), |old(log)|, list);
          FailuresLast(before, Attempt(list[i], outcome), |old(log)|);
          TriedLast(before, Attempt(list[i], outcome), |old(log)|);
          match outcome
          case Immutable =>
          case Failed =>
            errorCount := errorCount + 1;
            failed := true;
          case Deleted =>
            totalDeleted := totalDeleted + 1;
        }
      }
    }

    /** One stream of the limit policy: its outdated deltas, then its full snapshot if it is beyond
        the limit. */
    method CollectLimited(list: seq<Snapshot>, full: seq<nat>, k: nat, retention: int, beyond: bool)
      returns (total: nat)
      requires Valid(list) && FullUpTo(list, full, |list|) && k + 1 < |full| && full[k] < full[k + 1] < |list|
      modifies `listing, `ticks, `readings, `log
      ensures Valid(list) && old(log) <= log && Deletions(log) == Deletions(old(log)) + total
      ensures readings == old(readings) + 1
      ensures OnlyListed(log, |old(log)|, list[full[k]..full[k + 1]])
      ensures StreamsWait(log, |old(log)|, list, full, k, k + 1)
      ensures var cutoff := world.reading(old(readings)) - retention;
              && StreamSpared(list, full[k], full[k + 1], cutoff, beyond, old(listing), listing)
              && (DeletesSucceed(log, |old(log)|, list) ==>
                    StreamSwept(list, full[k], full[k + 1], cutoff, beyond, old(listing), listing))
    {
      hide Guarded, Distinct, LastFull, NewSaves, Explained, FullUpTo, Deletions, OnlyOutdated, DeletesSucceed,
           Outdated;
      LastOfFull(list, full);
      FullOrder(list, full);
      assert full[k + 1] <= full[|full| - 1];
      var failed;
      total, failed := GarbageCollectDeltaSnapshots(list, full[k], full[k + 1], retention);
      BaseNotTried(log, |old(log)|, list, full[k], full[k + 1], world.reading(old(readings)) - retention);
      if !failed && beyond {
        ghost var mid := log;
        var outcome := DeleteOlder(list, full[k]);
        SucceedLast(mid, Attempt(list[full[k]], outcome), |old(log)|, list);
        BaseAfterDeltas(mid, Attempt(list[full[k]], outcome), |old(log)|, list, full[k], full[k + 1]);
        if outcome.Deleted? { total := total + 1; }
      }
    }

    /** Keeps the newest `maxBackups` full snapshots. */
    method LimitBasedPolicy(list: seq<Snapshot>, full: seq<nat>, maxBackups: nat, retention: int) returns (total: nat)
      requires Valid(list) && FullUpTo(list, full, |list|)
      modifies `listing, `ticks, `readings, `log
      ensures Valid(list) && old(log) <= log && Deletions(log) == Deletions(old(log)) + total
      ensures OnlyListed(log, |old(log)|, list) && BasesWait(log, |old(log)|, list)
      ensures PassResult(world, old(readings), LimitBased(maxBackups), retention, list, full, old(listing), listing,
                         DeletesSucceed(log, |old(log)|, list))
    {
      hide Guarded, Distinct, LastFull, NewSaves, Explained, FullUpTo, Swept, Spared, StreamSwept, StreamSpared,
           Deletions, Cutoffs, DeletesSucceed, Handled, OnlyListed, StreamsWait, BasesWait;
      ghost var marks := BeyondLimit(full, maxBackups);
      ghost var cutoffs := Cutoffs(world, readings, LimitBased(maxBackups), retention, list, full);
      FullOrder(list, full);
      LastOfFull(list, full);
      SweptNothing(list, full, marks, marks, cutoffs, 0, listing);
      HandledNothing(log, list, full, 0);
      total := 0;
      var fi := 0;
      while fi < |full| - 1
        invariant 0 <= fi < |full|
        invariant Valid(list) && old(log) <= log && readings == old(readings) + fi
        invariant Handled(log, |old(log)|, list, full, 0, fi)
        invariant Deletions(log) == Deletions(old(log)) + total
        invariant Spared(list, full, marks, cutoffs, 0, full[fi], old(listing), listing)
        invariant DeletesSucceed(log, |old(log)|, list) ==>
                    Swept(list, full, marks, cutoffs, 0, full[fi], old(listing), listing)
      {
        ghost var before, was := listing, log;
        assert full[fi + 1] <= full[|full| - 1];
        CutoffOfStream(world, old(readings), LimitBased(maxBackups), retention, list, full, fi);
        ghost var cutoff := world.reading(readings) - retention;
        var deleted := CollectLimited(list, full, fi, retention, fi < |full| - maxBackups);
        StreamHandled(was, log, |old(log)|, list, full, 0, fi, fi);
        total := total + deleted;
        SpareStream(list, full, marks, cutoffs, cutoff, fi, marks[fi], before, listing);
        SparedJoin(list, full, marks, cutoffs, 0, full[fi], full[fi + 1], old(listing), before, listing);
        if DeletesSucceed(log, |old(log)|, list) {
          SucceedParts(was, log, |old(log)|, list);
          SweepStream(list, full, marks, cutoffs, cutoff, fi, before, listing);
          SweptJoin(list, full, marks, cutoffs, 0, full[fi], full[fi + 1], old(listing), before, listing);
        }
        fi := fi + 1;
      }
      AllHandled(list, full, |old(log)|);
    }

    lemma AllHandled(list: seq<Snapshot>, full: seq<nat>, n: nat)
      requires Valid(list) && FullUpTo(list, full, |list|) && Handled(log, n, list, full, 0, |full| - 1)
      ensures OnlyListed(log, n, list) && BasesWait(log, n, list)
    {
      AllStreamsWait(log, n, list, full);
    }

    /** One stream of the exponential policy: its outdated deltas, then its full snapshot. */
    method CollectStream(list: seq<Snapshot>, full: seq<nat>, k: nat, retention: int, now: int, eod: int,
                         trackingWeek: bool)
      returns (total: nat, eod': int, trackingWeek': bool)
      requires Valid(list) && FullUpTo(list, full, |list|) && k + 1 < |full| && full[k] < full[k + 1] < |list|
      requires eod == Eod(now, trackingWeek)
      modifies `listing, `ticks, `readings, `log
      ensures Valid(list) && old(log) <= log && Deletions(log) == Deletions(old(log)) + total
      ensures eod' == Eod(now, trackingWeek') && readings == old(readings) + 1
      ensures OnlyListed(log, |old(log)|, list[full[k]..full[k + 1]])
      ensures StreamsWait(log, |old(log)|, list, full, k, k + 1)
      ensures var (keep, weeks) := Decide(now, trackingWeek, list[full[k]].createdOn, list[full[k + 1]].createdOn);
              var cutoff := world.reading(old(readings)) - retention;
              && (trackingWeek' == trackingWeek || trackingWeek' == weeks)
              && StreamSpared(list, full[k], full[k + 1], cutoff, !keep, old(listing), listing)
              && (DeletesSucceed(log, |old(log)|, list) ==>
                    && trackingWeek' == weeks
                    && StreamSwept(list, full[k], full[k + 1], cutoff, !keep, old(listing), listing))
    {
      hide Guarded, Distinct, LastFull, NewSaves, Explained, FullUpTo, Decide, EndOfDay, Deletions, OnlyOutdated,
           DeletesSucceed, Outdated;
      LastOfFull(list, full);
      FullOrder(list, full);
      assert full[k + 1] <= full[|full| - 1];
      var snap, nextSnap := list[full[k + 1]], list[full[k]];
      eod', trackingWeek' := eod, trackingWeek;
      var failed;
      total, failed := GarbageCollectDeltaSnapshots(list, full[k], full[k + 1], retention);
      BaseNotTried(log, |old(log)|, list, full[k], full[k + 1], world.reading(old(readings)) - retention);
      if !failed {
        var keep;
        keep, eod', trackingWeek' := KeepSnapshot(now, eod, trackingWeek, nextSnap.createdOn, snap.createdOn);
        if !keep {
          ghost var mid := log;
          var outcome := DeleteOlder(list, full[k]);
          SucceedLast(mid, Attempt(nextSnap, outcome), |old(log)|, list);
          BaseAfterDeltas(mid, Attempt(nextSnap, outcome), |old(log)|, list, full[k], full[k + 1]);
          if outcome.Deleted? { total := total + 1; }
        }
      }
    }

    /** Keeps the newest full snapshots of the hours of today, of the last seven days and of
        the four weeks before. */
    method ExponentialPolicy(list: seq<Snapshot>, full: seq<nat>, retention: int) returns (total: nat)
      requires Valid(list) && FullUpTo(list, full, |list|)
      modifies `listing, `ticks, `readings, `log
      ensures Valid(list) && old(log) <= log && Deletions(log) == Deletions(old(log)) + total
      ensures OnlyListed(log, |old(log)|, list) && BasesWait(log, |old(log)|, list)
      ensures PassResult(world, old(readings), Exponential, retention, list, full, old(listing), listing,
                         DeletesSucceed(log, |old(log)|, list))
    {
      hide Valid, Distinct, LastFull, FullUpTo, StreamSwept, StreamSpared, Deletions, Decide, EndOfDay, Cutoffs,
           DeletesSucceed, ThinnedFrom, Handled, OnlyListed, StreamsWait, BasesWait;
      ListIsDistinct(list);
      FullOrder(list, full);
      LastOfFull(list, full);
      ghost var cutoffs := Cutoffs(world, readings, Exponential, retention, list, full);
      var now := Now();
      var eod, trackingWeek := EndOfDay(now), false;
      total := 0;
      var fi := |full| - 1;
      ThinnedNothing(now, list, full, cutoffs, DeletesSucceed(log, |log|, list), listing);
      HandledNothing(log, list, full, fi);
      while fi > 0
        invariant 0 <= fi < |full|
        invariant Valid(list) && old(log) <= log && readings == old(readings) + |full| - fi
        invariant Handled(log, |old(log)|, list, full, fi, |full| - 1)
        invariant Deletions(log) == Deletions(old(log)) + total
        invariant eod == Eod(now, trackingWeek)
        invariant ThinnedFrom(now, list, full, cutoffs, fi, trackingWeek, DeletesSucceed(log, |old(log)|, list),
                              old(listing), listing)
      {
        var k := fi - 1;
        assert full[fi] <= full[|full| - 1];
        ghost var before, was, weeks := listing, log, trackingWeek;
        CutoffOfStream(world, old(readings), Exponential, retention, list, full, k);
        ghost var cutoff := world.reading(readings) - retention;
        var deleted;
        deleted, eod, trackingWeek := CollectStream(list, full, k, retention, now, eod, trackingWeek);
        StreamHandled(was, log, |old(log)|, list, full, fi, |full| - 1, k);
        total := total + deleted;
        ghost var succeed := DeletesSucceed(log, |old(log)|, list);
        if succeed { SucceedParts(was, log, |old(log)|, list); }
        ThinStream(now, list, full, cutoffs, cutoff, k, weeks, trackingWeek, DeletesSucceed(was, |old(log)|, list),
                   succeed, old(listing), before, listing);
        fi := fi - 1;
      }
      Thinned(now, list, full, cutoffs, trackingWeek, DeletesSucceed(log, |old(log)|, list), old(listing), listing);
      AllHandled(list, full, |old(log)|);
    }

    /** Deletes the chunks of snapshots that have been uploaded and drops all chunks from the list. */
    method GarbageCollectChunks(snapList: seq<Snapshot>, prevLastRevision: int)
      returns (chunksDeleted: nat, nonChunks: seq<Snapshot>)
      requires Valid(WithoutChunks(snapList)) && NewSaves(world, snapList)
      modifies `listing, `ticks, `log
      ensures nonChunks == WithoutChunks(snapList) && Valid(nonChunks) && old(log) <= log
      ensures Deletions(log) == Deletions(old(log)) + chunksDeleted
      ensures OnlyChunks(log, |old(log)|, snapList, prevLastRevision)
      ensures ChunksTried(log, |old(log)|, snapList, false, prevLastRevision)
      ensures forall s :: s in snapList && !Collectable(s, prevLastRevision) ==> (s in listing <==> s in old(listing))
      ensures DeletesSucceed(log, |old(log)|, snapList) ==>
                forall s :: s in snapList && Collectable(s, prevLastRevision) ==> s !in listing
    {
      hide WithoutChunks, Valid, Deletions, NeverSaved, DeletesSucceed, Tried;
      ghost var list := WithoutChunks(snapList);
      WithoutChunksMembers(snapList);
      chunksDeleted, nonChunks := 0, [];
      NoChunksInNothing();
      for i := 0 to |snapList|
        invariant nonChunks == WithoutChunks(snapList[..i])
        invariant Valid(list) && old(log) <= log
        invariant Deletions(log) == Deletions(old(log)) + chunksDeleted
        invariant OnlyChunks(log, |old(log)|, snapList, prevLastRevision)
        invariant forall j :: 0 <= j < i && Collectable(snapList[j], prevLastRevision) ==>
                    Tried(log, |old(log)|, snapList[j])
        invariant forall s :: s in snapList && !Collectable(s, prevLastRevision) ==>
                    (s in listing <==> s in old(listing))
        invariant DeletesSucceed(log, |old(log)|, snapList) ==>
                    forall s :: s in snapList[..i] && Collectable(s, prevLastRevision) ==> s !in listing
      {
        var snap := snapList[i];
        assert snapList[..i + 1] == snapList[..i] + [snap];
        WithoutChunksConcat(snapList[..i], [snap]);
        SingleWithoutChunks(snap);
        if !snap.isChunk {
          nonChunks := nonChunks + [snap];
        } else if prevLastRevision != 0 && snap.startRevision <= prevLastRevision {
          ghost var before := log;
          var outcome := DeleteChunk(list, snap);
          TriedLast(before, Attempt(snap, outcome), |old(log)|);
          SucceedLast(before, Attempt(snap, outcome), |old(log)|, snapList);
          if outcome.Deleted? { chunksDeleted := chunksDeleted + 1; }
        }
      }
      assert snapList[..|snapList|] == snapList;
      TriedAreChunks(log, |old(log)|, snapList, prevLastRevision);
    }

    /** One run of the collector. The log explains the new listing: every deletion in it, whatever
        other deletes do and whatever is saved meanwhile, leaves the chain selected for a restore
        as it was and respects the immutability period. Nothing goes that the policy does not give
        up, and if no delete fails, everything goes that it does give up. A full snapshot is not even
        tried when deleting one of its deltas has failed. The chunks that are tried
        are those of uploaded snapshots, but on Swift none. */
    method CollectGarbage(policy: Policy, swift: bool, prevLastRevision: int, retention: int) returns (total: nat)
      requires Explained() && NewSaves(world, listing) && Distinct(listing)
      modifies `listing, `ticks, `readings, `log
      ensures Explained() && old(log) <= log
      ensures total == SnapshotDeletions(log) - SnapshotDeletions(old(log))
      ensures NoSaves(world) ==> Selected(listing) == Selected(old(listing))
      ensures forall n :: 0 <= n < |log| ==> PeriodRespected(world, n, log[n])
      ensures ChunksTried(log, |old(log)|, old(listing), swift, prevLastRevision)
      ensures BasesWait(log, |old(log)|, WithoutChunks(old(listing)))
      ensures forall s :: s in old(listing) ==>
                (s !in listing <==>
                 exists n :: |old(log)| <= n < |log| && log[n].target == s && log[n].outcome.Deleted?)
      ensures var list := WithoutChunks(old(listing));
              exists full :: PassResult(world, old(readings), policy, retention, list, full, old(listing), listing,
                                        DeletesSucceed(log, |old(log)|, list))
    {
      hide WithoutChunks, Guarded, LastFull, FullUpTo, Swept, Spared, DeletesSucceed, Regular, Retained, Deletions,
           NeverSaved, GoodLog, ListingAfter, Selected, NoSaves, PassResult, SnapshotDeletions;
      var snapList := listing;
      ghost var list := WithoutChunks(snapList);
      WithoutChunksMembers(snapList);
      WithoutChunksDistinct(snapList);
      ListedIsGuarded(snapList);
      var chunksDeleted := 0;
      if swift {
        snapList := WithoutChunks(snapList);
      } else {
        chunksDeleted, snapList := GarbageCollectChunks(snapList, prevLastRevision);
      }
      hide Distinct, NewSaves, Explained;
      ghost var before, mid := listing, log;
      assert forall j :: 0 <= j < |list| ==> list[j] in before && list[j] in old(listing);
      var full := GetFullSnapshotIndexList(snapList);
      match policy {
        case Exponential => total := ExponentialPolicy(snapList, full, retention);
        case LimitBased(maxBackups) => total := LimitBasedPolicy(snapList, full, maxBackups, retention);
      }
      ghost var succeed := DeletesSucceed(log, |old(log)|, list);
      if succeed { SucceedParts(mid, log, |old(log)|, list); }
      PassFrom(world, old(readings), policy, retention, list, full, old(listing), before, listing,
               DeletesSucceed(log, |mid|, list), succeed);
      SelectionSince(old(log), old(listing));
      TriedSince(old(log), mid, old(listing), list, swift, prevLastRevision);
      MembersSince(old(log), old(listing));
      CountSince(old(log), mid, list);
      WaitSince(old(log), mid, list);
    }

    lemma WaitSince(before: seq<Attempt>, mid: seq<Attempt>, list: seq<Snapshot>)
      requires before <= mid <= log && BasesWait(log, |mid|, list) && NoChunks(list)
      requires forall n :: |before| <= n < |mid| ==> mid[n].target.isChunk
      ensures BasesWait(log, |before|, list)
    {
      assert forall n :: 0 <= n < |mid| ==> log[n] == mid[n];
    }

    lemma CountSince(before: seq<Attempt>, mid: seq<Attempt>, list: seq<Snapshot>)
      requires before <= mid <= log && OnlyListed(log, |mid|, list) && NoChunks(list)
      requires forall n :: |before| <= n < |mid| ==> mid[n].target.isChunk
      ensures SnapshotDeletions(log) - SnapshotDeletions(before) == Deletions(log) - Deletions(mid)
    {
      hide SnapshotDeletions, Deletions;
      assert mid[..|before|] == before && log[..|mid|] == mid;
      DeletionsSince(mid, |before|);
      DeletionsSince(log, |mid|);
    }

    lemma TriedSince(before: seq<Attempt>, mid: seq<Attempt>, was: seq<Snapshot>, list: seq<Snapshot>, swift: bool,
                     prevLastRevision: int)
      requires before <= mid <= log && OnlyListed(log, |mid|, list) && NoChunks(list)
      requires if swift then mid == before else ChunksTried(mid, |before|, was, false, prevLastRevision)
      ensures ChunksTried(log, |before|, was, swift, prevLastRevision)
    {
    }

    lemma MembersSince(before: seq<Attempt>, was: seq<Snapshot>)
      requires Explained() && before <= log && was == ListingAfter(world, start, before) && NewSaves(world, was)
      ensures forall n :: 0 <= n < |log| ==> PeriodRespected(world, n, log[n])
      ensures forall s :: s in was ==>
                (s !in listing <==> exists n :: |before| <= n < |log| && log[n].target == s && log[n].outcome.Deleted?)
    {
      hide ListingAfter, GoodLog, NeverSaved;
      PeriodsAreRespected(world, start, log);
      assert log[..|before|] == before;
      forall s | s in was
        ensures s !in listing <==> exists n :: |before| <= n < |log| && log[n].target == s && log[n].outcome.Deleted?
      {
        MembersByLog(world, start, log, |before|, s);
      }
    }

    lemma SelectionSince(before: seq<Attempt>, was: seq<Snapshot>)
      requires Explained() && before <= log && was == ListingAfter(world, start, before)
      ensures NoSaves(world) ==> Selected(listing) == Selected(was)
    {
      hide ListingAfter, Selected, NoSaves, GoodLog;
      assert log[..|before|] == before;
      if NoSaves(world) { SelectionKept(world, start, log, |before|); }
    }
  }

  /** What a run of the policy leaves. Full snapshots are judged at the first look at the clock,
      deltas at that of their stream. */
  ghost predicate PassResult(world: World, from: nat, policy: Policy, retention: int, list: seq<Snapshot>,
                             full: seq<nat>, before: seq<Snapshot>, after: seq<Snapshot>, succeed: bool)
  {
    var now, cutoffs := world.reading(from), Cutoffs(world, from, policy, retention, list, full);
    && SparedBy(now, policy, cutoffs, list, full, before, after)
    && (succeed ==> SweptBy(now, policy, cutoffs, list, full, before, after))
  }

  lemma PassFrom(world: World, from: nat, policy: Policy, retention: int, list: seq<Snapshot>, full: seq<nat>,
                 start: seq<Snapshot>, before: seq<Snapshot>, after: seq<Snapshot>, passed: bool, succeed: bool)
    requires forall j :: 0 <= j < |list| ==> (list[j] in before <==> list[j] in start)
    requires PassResult(world, from, policy, retention, list, full, before, after, passed) && (succeed ==> passed)
    ensures PassResult(world, from, policy, retention, list, full, start, after, succeed)
  {
    hide Swept, Spared, FullUpTo, Regular, Cutoffs, Marks, MayMarks;
    var now, cutoffs := world.reading(from), Cutoffs(world, from, policy, retention, list, full);
    FullOrder(list, full);
    var hi := full[|full| - 1];
    SweptSince(list, full, Marks(now, policy, list, full), cutoffs, hi, start, before, after);
    SweptSince(list, full, MayMarks(now, policy, list, full), cutoffs, hi, start, before, after);
  }

  /** Two runs of the exponential policy, with nobody saving in between. `again` is the number of
      the look at the clock that the second run starts with. */
  method CollectTwice(gc: Collector, swift: bool, prevLastRevision: int, retention: int)
    returns (ghost between: seq<Snapshot>, ghost again: nat)
    requires gc.Explained() && NoSaves(gc.world) && Distinct(gc.listing)
    modifies gc
    ensures gc.Explained() && Selected(gc.listing) == Selected(old(gc.listing))
    ensures var list, now := WithoutChunks(old(gc.listing)), gc.world.reading(old(gc.readings));
            && DeletesSucceed(gc.log, |old(gc.log)|, list) && Chronological(now, list)
            && gc.world.reading(again) == now ==>
              && WithoutChunks(between) == Remaining(list, between)
              && FullTimes(WithoutChunks(between)) == Survivors(now, FullTimes(list))
              && |Archived(now, FullTimes(WithoutChunks(between)))| <= 34
              && ((forall s :: s in between && s.IsFull() ==> s in gc.listing) <==> !LosesWeek(now, FullTimes(list)))
  {
    hide GoodLog, ListingAfter, Selected, WithoutChunks, Remaining, FullTimes, Survivors, Archived, DeletesSucceed,
         Chronological, PassResult, Distinct, LosesWeek;
    ghost var start, log, from := gc.listing, gc.log, gc.readings;
    NobodySaves(gc.world, gc.listing);
    var first := gc.CollectGarbage(Exponential, swift, prevLastRevision, retention);
    between, again := gc.listing, gc.readings;
    ghost var mid := gc.log;
    assert mid[..|log|] == log;
    StaysDistinct(gc.world, gc.start, gc.log, |log|);
    ListingIsRemaining(gc.world, gc.start, gc.log, |log|);
    NobodySaves(gc.world, gc.listing);
    var second := gc.CollectGarbage(Exponential, swift, prevLastRevision, retention);
    ghost var list, left := WithoutChunks(start), WithoutChunks(between);
    ghost var full :| PassResult(gc.world, from, Exponential, retention, list, full, start, between,
                                 DeletesSucceed(mid, |log|, list));
    ghost var full' :| PassResult(gc.world, again, Exponential, retention, left, full', between, gc.listing,
                                  DeletesSucceed(gc.log, |mid|, left));
    if DeletesSucceed(gc.log, |log|, list) && Chronological(gc.world.reading(from), list)
       && gc.world.reading(again) == gc.world.reading(from) {
      SucceedParts(mid, gc.log, |log|, list);
      SucceedLeft(gc.log, |mid|, list, between);
      SecondRun(gc.world, from, again, retention, start, between, gc.listing, full, full');
    }
  }

  lemma NobodySaves(world: World, list: seq<Snapshot>)
    requires NoSaves(world)
    ensures NewSaves(world, list)
  {
  }

  lemma SucceedLeft(log: seq<Attempt>, n: nat, list: seq<Snapshot>, listing: seq<Snapshot>)
    requires DeletesSucceed(log, n, list)
    ensures DeletesSucceed(log, n, Remaining(list, listing))
  {
    hide Remaining;
    RemainingMembers(list, listing);
  }

  /** When a second run at the same time deletes no full snapshot. */
  lemma SecondRun(world: World, from: nat, again: nat, retention: int, start: seq<Snapshot>, between: seq<Snapshot>,
                  after: seq<Snapshot>, full: seq<nat>, full': seq<nat>)
    requires PassResult(world, from, Exponential, retention, WithoutChunks(start), full, start, between, true)
    requires PassResult(world, again, Exponential, retention, WithoutChunks(between), full', between, after, true)
    requires WithoutChunks(between) == Remaining(WithoutChunks(start), between)
    requires world.reading(again) == world.reading(from)
    requires Chronological(world.reading(from), WithoutChunks(start))
    ensures FullTimes(WithoutChunks(between)) == Survivors(world.reading(from), FullTimes(WithoutChunks(start)))
    ensures |Archived(world.reading(from), FullTimes(WithoutChunks(between)))| <= 34
    ensures (forall s :: s in between && s.IsFull() ==> s in after) <==>
            !LosesWeek(world.reading(from), FullTimes(WithoutChunks(start)))
  {
    hide WithoutChunks, Remaining, FullTimes, Survivors, Archived, Chronological, SweptBy, SparedBy, Cutoffs,
         LosesWeek;
    var list, left := WithoutChunks(start), WithoutChunks(between);
    WithoutChunksMembers(start);
    WithoutChunksMembers(between);
    RemainingMembers(list, between);
    PassFrom(world, from, Exponential, retention, list, full, list, start, between, true, true);
    PassFrom(world, again, Exponential, retention, left, full', left, between, after, true, true);
    var now := world.reading(from);
    var cutoffs := Cutoffs(world, from, Exponential, retention, list, full);
    var cutoffs' := Cutoffs(world, again, Exponential, retention, left, full');
    ExponentialLeaves(now, list, full, cutoffs, between);
    SecondPass(now, list, full, cutoffs, between, full', cutoffs', after);
  }
}

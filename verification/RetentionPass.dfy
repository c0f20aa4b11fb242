/** What a pass of the garbage collector deletes, and what it spares whatever fails
    (pkg/snapshot/snapshotter/garbagecollector.go). */
module RetentionPass {
  import opened SnapTypes
  import opened Selection
  import opened Retention
  import opened Listings

  datatype Policy = Exponential | LimitBased(maxBackups: nat)

  // ---------------------------------------------------------------------------
  // Positions of full snapshots
  // ---------------------------------------------------------------------------

  /** `full` starts with 0, whatever is there, and goes on with the full snapshots of the list
      up to position `n`. */
  ghost predicate FullUpTo(list: seq<Snapshot>, full: seq<nat>, n: nat) {
    && full != [] && full[0] == 0
    && (forall k :: 1 <= k < |full| ==> full[k] < n <= |list| && list[full[k]].IsFull())
    && (forall j, k :: 0 <= j < k < |full| ==> full[j] < full[k])
    && (forall i :: 1 <= i < n <= |list| && list[i].IsFull() ==> i in full)
  }

  method GetFullSnapshotIndexList(list: seq<Snapshot>) returns (full: seq<nat>)
    ensures FullUpTo(list, full, |list|)
  {
    full := [0];
    var index := 1;
    while index < |list|
      invariant 1 <= index
      invariant index <= |list| ==> FullUpTo(list, full, index)
      invariant index > |list| ==> list == [] && full == [0]
    {
      if list[index].kind.Full? && !list[index].isChunk {
        full := full + [index];
      }
      index := index + 1;
    }
  }

  /** The last position is the newest full snapshot, unless there is none after the first. */
  lemma LastOfFull(list: seq<Snapshot>, full: seq<nat>)
    requires FullUpTo(list, full, |list|)
    ensures |full| > 1 || (list != [] && list[0].IsFull()) ==> full[|full| - 1] == LastFull(list)
    ensures |full| == 1 && !(list != [] && list[0].IsFull()) ==> LastFull(list) < 0
  {
    hide LastFull;
    LastFullIsFull(list);
    LastFullIsLast(list);
    var k := LastFull(list);
    if k >= 1 {
      assert k in full;
      var j :| 0 <= j < |full| && full[j] == k;
    }
  }

  lemma FullOrder(list: seq<Snapshot>, full: seq<nat>)
    requires FullUpTo(list, full, |list|)
    ensures full != [] && full[0] == 0
    ensures forall j, k :: 0 <= j < k < |full| ==> full[j] < full[k]
    ensures list != [] ==> forall k :: 0 <= k < |full| ==> full[k] < |list|
  {
  }

  // ---------------------------------------------------------------------------
  // What a pass deletes
  // ---------------------------------------------------------------------------

  ghost predicate NoChunks(list: seq<Snapshot>) {
    forall i :: 0 <= i < |list| ==> !list[i].isChunk
  }

  predicate Outdated(s: Snapshot, cutoff: int) {
    s.kind.Incr? && s.createdOn < cutoff
  }

  function CreationTimes(list: seq<Snapshot>, full: seq<nat>): (ts: seq<int>)
    ensures |ts| == |full|
    ensures forall k :: 0 <= k < |full| && full[k] < |list| ==> ts[k] == list[full[k]].createdOn
  {
    seq(|full|, k requires 0 <= k < |full| => if full[k] < |list| then list[full[k]].createdOn else 0)
  }

  /** Which entries of the index list no window retains. */
  function Discarded(now: int, ts: seq<int>): (marks: seq<bool>)
    ensures |marks| == |ts| && forall k :: 0 <= k < |ts| ==> (marks[k] <==> !Retained(now, ts[k..]))
  {
    seq(|ts|, k requires 0 <= k < |ts| => !Retained(now, ts[k..]))
  }

  /** Which entries of the index list are beyond the newest `maxBackups`. */
  function BeyondLimit(full: seq<nat>, maxBackups: nat): (marks: seq<bool>)
    ensures |marks| == |full| && forall k :: 0 <= k < |full| ==> (marks[k] <==> k < |full| - maxBackups)
  {
    seq(|full|, k => k < |full| - maxBackups)
  }

  /** The entries of the index list that the policy gives up. */
  function Marks(now: int, policy: Policy, list: seq<Snapshot>, full: seq<nat>): (marks: seq<bool>)
    ensures |marks| == |full|
  {
    match policy
    case Exponential => Discarded(now, CreationTimes(list, full))
    case LimitBased(maxBackups) => BeyondLimit(full, maxBackups)
  }

  /** The entries of the index list come in the order of their creation, none in the future. */
  ghost predicate Regular(now: int, list: seq<Snapshot>, full: seq<nat>) {
    list != [] && FullUpTo(list, full, |list|) && Times(now, CreationTimes(list, full))
  }

  lemma RegularTimes(now: int, list: seq<Snapshot>, full: seq<nat>)
    requires Regular(now, list, full)
    ensures list != []
    ensures Times(now, CreationTimes(list, full))
  {
  }

  lemma TimesAndMarks(now: int, list: seq<Snapshot>, full: seq<nat>)
    requires FullUpTo(list, full, |list|) && list != []
    ensures var ts := CreationTimes(list, full);
            && |ts| == |full| == |Discarded(now, ts)|
            && (forall k :: 0 <= k < |full| ==> full[k] < |list| && ts[k] == list[full[k]].createdOn)
            && (forall k :: 0 <= k < |full| ==> (Discarded(now, ts)[k] <==> !Retained(now, ts[k..])))
  {
  }

  ghost predicate Marked(full: seq<nat>, marks: seq<bool>, i: nat) {
    exists k :: 0 <= k < |full| && k < |marks| && full[k] == i && marks[k]
  }

  /** Whether the pass deletes position `i`: a delta outdated by the cutoff of its stream, or a marked
      entry of the index list, which may be a delta at position 0. */
  ghost predicate Doomed(list: seq<Snapshot>, full: seq<nat>, marks: seq<bool>, cutoffs: seq<int>, i: nat)
    requires i < |list| == |cutoffs|
  {
    Outdated(list[i], cutoffs[i]) || Marked(full, marks, i)
  }

  /** Between `before` and `after` exactly the doomed snapshots of `list[lo..hi]` disappeared. */
  ghost predicate Swept(list: seq<Snapshot>, full: seq<nat>, marks: seq<bool>, cutoffs: seq<int>, lo: int, hi: int,
                        before: seq<Snapshot>, after: seq<Snapshot>)
    requires |cutoffs| == |list|
  {
    forall j :: 0 <= j < |list| ==>
      (list[j] in after <==> list[j] in before && !(lo <= j < hi && Doomed(list, full, marks, cutoffs, j)))
  }

  /** Between `before` and `after` nothing but doomed snapshots of `list[lo..hi]` disappeared. */
  ghost predicate Spared(list: seq<Snapshot>, full: seq<nat>, marks: seq<bool>, cutoffs: seq<int>, lo: int, hi: int,
                         before: seq<Snapshot>, after: seq<Snapshot>)
    requires |cutoffs| == |list|
  {
    forall j :: 0 <= j < |list| ==>
      && (list[j] in after ==> list[j] in before)
      && (list[j] in before && list[j] !in after ==> lo <= j < hi && Doomed(list, full, marks, cutoffs, j))
  }

  lemma SweptNothing(list: seq<Snapshot>, full: seq<nat>, marks: seq<bool>, marks': seq<bool>, cutoffs: seq<int>,
                     lo: int, listing: seq<Snapshot>)
    requires |cutoffs| == |list|
    ensures Swept(list, full, marks, cutoffs, lo, lo, listing, listing)
    ensures Spared(list, full, marks', cutoffs, lo, lo, listing, listing)
  {
  }

  lemma SweptJoin(list: seq<Snapshot>, full: seq<nat>, marks: seq<bool>, cutoffs: seq<int>, lo: int, mid: int, hi: int,
                  a: seq<Snapshot>, b: seq<Snapshot>, c: seq<Snapshot>)
    requires lo <= mid <= hi && |cutoffs| == |list|
    requires || (&& Swept(list, full, marks, cutoffs, lo, mid, a, b)
                 && Swept(list, full, marks, cutoffs, mid, hi, b, c))
             || (&& Swept(list, full, marks, cutoffs, mid, hi, a, b)
                 && Swept(list, full, marks, cutoffs, lo, mid, b, c))
    ensures Swept(list, full, marks, cutoffs, lo, hi, a, c)
  {
    hide Doomed;
  }

  lemma SparedJoin(list: seq<Snapshot>, full: seq<nat>, marks: seq<bool>, cutoffs: seq<int>, lo: int, mid: int, hi: int,
                   a: seq<Snapshot>, b: seq<Snapshot>, c: seq<Snapshot>)
    requires lo <= mid <= hi && |cutoffs| == |list|
    requires || (&& Spared(list, full, marks, cutoffs, lo, mid, a, b)
                 && Spared(list, full, marks, cutoffs, mid, hi, b, c))
             || (&& Spared(list, full, marks, cutoffs, mid, hi, a, b)
                 && Spared(list, full, marks, cutoffs, lo, mid, b, c))
    ensures Spared(list, full, marks, cutoffs, lo, hi, a, c)
  {
    hide Doomed;
  }

  /** Between `before` and `after` exactly the outdated deltas of `list[lo..hi]` disappeared, and
      `list[lo]` if `first` says so. */
  ghost predicate StreamSwept(list: seq<Snapshot>, lo: nat, hi: nat, cutoff: int, first: bool,
                              before: seq<Snapshot>, after: seq<Snapshot>)
  {
    forall j :: 0 <= j < |list| ==>
      (list[j] in after <==>
       list[j] in before && !(lo <= j < hi && Outdated(list[j], cutoff)) && !(first && j == lo))
  }

  /** Nothing else disappeared. */
  ghost predicate StreamSpared(list: seq<Snapshot>, lo: nat, hi: nat, cutoff: int, first: bool,
                               before: seq<Snapshot>, after: seq<Snapshot>)
  {
    forall j :: 0 <= j < |list| ==>
      && (list[j] in after ==> list[j] in before)
      && (list[j] in before && list[j] !in after ==>
            (lo <= j < hi && Outdated(list[j], cutoff)) || (first && j == lo))
  }

  /** One stream of the pass: its outdated deltas go, and its first entry if it is marked. */
  lemma SweepStream(list: seq<Snapshot>, full: seq<nat>, marks: seq<bool>, cutoffs: seq<int>, cutoff: int, k: nat,
                    before: seq<Snapshot>, after: seq<Snapshot>)
    requires FullUpTo(list, full, |list|) && k + 1 < |full| == |marks| && |cutoffs| == |list|
    requires forall j :: full[k] <= j < full[k + 1] && j < |list| ==> cutoffs[j] == cutoff
    requires StreamSwept(list, full[k], full[k + 1], cutoff, marks[k], before, after)
    ensures Swept(list, full, marks, cutoffs, full[k], full[k + 1], before, after)
  {
  }

  /** Whatever fails: only outdated deltas go, and the first entry only if it is marked. */
  lemma SpareStream(list: seq<Snapshot>, full: seq<nat>, marks: seq<bool>, cutoffs: seq<int>, cutoff: int, k: nat,
                    first: bool, before: seq<Snapshot>, after: seq<Snapshot>)
    requires FullUpTo(list, full, |list|) && k + 1 < |full| == |marks| && |cutoffs| == |list|
    requires forall j :: full[k] <= j < full[k + 1] && j < |list| ==> cutoffs[j] == cutoff
    requires StreamSpared(list, full[k], full[k + 1], cutoff, first, before, after) && (first ==> marks[k])
    ensures Spared(list, full, marks, cutoffs, full[k], full[k + 1], before, after)
  {
  }

  /** What a pass leaves of `before` if all its deletes succeed. */
  ghost predicate SweptBy(now: int, policy: Policy, cutoffs: seq<int>, list: seq<Snapshot>, full: seq<nat>,
                          before: seq<Snapshot>, after: seq<Snapshot>)
  {
    && FullUpTo(list, full, |list|) && |cutoffs| == |list|
    && ((policy.Exponential? ==> Regular(now, list, full)) ==>
          Swept(list, full, Marks(now, policy, list, full), cutoffs, 0, full[|full| - 1], before, after))
  }

  /** Which entries of the index list a pass may delete when some of its deletes fail. */
  ghost function MayMarks(now: int, policy: Policy, list: seq<Snapshot>, full: seq<nat>): (marks: seq<bool>)
    ensures |marks| == |full|
  {
    match policy
    case LimitBased(maxBackups) => BeyondLimit(full, maxBackups)
    case Exponential =>
      if Regular(now, list, full) then MayDiscard(now, CreationTimes(list, full)) else seq(|full|, _ => true)
  }

  /** A pass that missed the beginning of the weeks gives up the oldest day of the oldest week too. */
  function MayDiscard(now: int, ts: seq<int>): (marks: seq<bool>)
    ensures |marks| == |ts|
    ensures forall k :: 0 <= k < |ts| ==> (marks[k] <==> !Retained(now, ts[k..]) || DaysAgo(now, ts[k]) == 35)
  {
    seq(|ts|, k requires 0 <= k < |ts| => !Retained(now, ts[k..]) || DaysAgo(now, ts[k]) == 35)
  }

  /** What a pass spares, whatever fails. */
  ghost predicate SparedBy(now: int, policy: Policy, cutoffs: seq<int>, list: seq<Snapshot>, full: seq<nat>,
                           before: seq<Snapshot>, after: seq<Snapshot>)
  {
    && FullUpTo(list, full, |list|) && |cutoffs| == |list|
    && Spared(list, full, MayMarks(now, policy, list, full), cutoffs, 0, full[|full| - 1], before, after)
  }

  lemma SweptSince(list: seq<Snapshot>, full: seq<nat>, marks: seq<bool>, cutoffs: seq<int>, hi: int,
                   start: seq<Snapshot>, before: seq<Snapshot>, after: seq<Snapshot>)
    requires |cutoffs| == |list| && forall j :: 0 <= j < |list| ==> (list[j] in before <==> list[j] in start)
    ensures Swept(list, full, marks, cutoffs, 0, hi, before, after) ==>
              Swept(list, full, marks, cutoffs, 0, hi, start, after)
    ensures Spared(list, full, marks, cutoffs, 0, hi, before, after) ==>
              Spared(list, full, marks, cutoffs, 0, hi, start, after)
  {
    hide Doomed;
  }

  /** The comparison of a full snapshot with the next newer one. */
  method KeepSnapshot(now: int, eod: int, trackingWeek: bool, next: int, snap: int)
    returns (keep: bool, eod': int, trackingWeek': bool)
    requires eod == Eod(now, trackingWeek)
    ensures (keep, trackingWeek') == Decide(now, trackingWeek, next, snap)
    ensures eod' == Eod(now, trackingWeek')
  {
    hide Changed, EndOfDay;
    eod', trackingWeek' := eod, trackingWeek;
    var threshold;
    var delta := Elapsed(eod, next);
    if delta < DAY {
      threshold := if HourOf(next) == HourOf(now) then 0 else 1;
    } else if delta < 8 * DAY {
      threshold := 24;
    } else if delta < 35 * DAY {
      if !trackingWeek {
        eod', trackingWeek' := eod - DAY, true;
      }
      threshold := 24 * 7;
    } else {
      threshold := 0x7fff_ffff;
    }
    keep := Changed(eod', threshold, next, snap);
  }

  /** One decision of the exponential policy, in terms of the suffix of creation times. */
  lemma DecideAt(now: int, ts: seq<int>, k: nat)
    requires Times(now, ts) && k + 1 < |ts|
    ensures Decide(now, CountsWeeks(now, ts[k + 1..]), ts[k], ts[k + 1])
         == (Retained(now, ts[k..]), CountsWeeks(now, ts[k..]))
  {
    hide Decide, Retained, CountsWeeks, DaysAgo;
    assert ts[k..][1..] == ts[k + 1..];
    DecideIsRetained(now, ts[k..]);
  }

  /** The same for a pass that may have missed the beginning of the weeks. */
  lemma DecideLaggingAt(now: int, weeks: bool, ts: seq<int>, k: nat)
    requires Times(now, ts) && k + 1 < |ts|
    requires weeks ==> CountsWeeks(now, ts[k + 1..])
    ensures var (keep, weeks') := Decide(now, weeks, ts[k], ts[k + 1]);
            && (!keep ==> MayDiscard(now, ts)[k])
            && (weeks || weeks' ==> CountsWeeks(now, ts[k..]))
  {
    hide Decide, Retained, CountsWeeks, DaysAgo;
    assert ts[k..][1..] == ts[k + 1..];
    CountsWeeksCons(now, ts[k..]);
    DecideLagging(now, weeks, ts[k..]);
  }

  lemma NewestDoesNotCount(now: int, t: int)
    ensures !CountsWeeks(now, [t])
  {
  }

  /** The exponential policy, from the newest stream down to entry `k` of the index list: what is
      spared whatever fails, and what is left if no delete has failed. */
  ghost predicate ThinnedFrom(now: int, list: seq<Snapshot>, full: seq<nat>, cutoffs: seq<int>, k: nat, weeks: bool,
                              succeed: bool, start: seq<Snapshot>, listing: seq<Snapshot>)
  {
    && FullUpTo(list, full, |list|) && |cutoffs| == |list| && k < |full|
    && var ts, lo, hi := CreationTimes(list, full), full[k], full[|full| - 1];
       && Spared(list, full, MayMarks(now, Exponential, list, full), cutoffs, lo, hi, start, listing)
       && (Regular(now, list, full) ==>
             && (weeks ==> CountsWeeks(now, ts[k..]))
             && (succeed ==>
                   && weeks == CountsWeeks(now, ts[k..])
                   && Swept(list, full, Discarded(now, ts), cutoffs, lo, hi, start, listing)))
  }

  lemma ThinnedNothing(now: int, list: seq<Snapshot>, full: seq<nat>, cutoffs: seq<int>, succeed: bool,
                       listing: seq<Snapshot>)
    requires FullUpTo(list, full, |list|) && |cutoffs| == |list|
    ensures ThinnedFrom(now, list, full, cutoffs, |full| - 1, false, succeed, listing, listing)
  {
    hide FullUpTo, Swept, Spared, CountsWeeks, Regular;
    FullOrder(list, full);
    var ts, k := CreationTimes(list, full), |full| - 1;
    var marks, may := Discarded(now, ts), MayMarks(now, Exponential, list, full);
    SweptNothing(list, full, marks, may, cutoffs, full[k], listing);
    assert ts[k..] == [ts[k]];
    NewestDoesNotCount(now, ts[k]);
  }

  /** One more stream. */
  lemma ThinStream(now: int, list: seq<Snapshot>, full: seq<nat>, cutoffs: seq<int>, cutoff: int, k: nat, weeks: bool,
                   weeks': bool, passed: bool, succeed: bool, start: seq<Snapshot>, before: seq<Snapshot>,
                   after: seq<Snapshot>)
    requires ThinnedFrom(now, list, full, cutoffs, k + 1, weeks, passed, start, before) && (succeed ==> passed)
    requires full[k] < full[k + 1] <= full[|full| - 1] < |list|
    requires forall j :: full[k] <= j < full[k + 1] && j < |list| ==> cutoffs[j] == cutoff
    requires var (keep, weeks'') := Decide(now, weeks, list[full[k]].createdOn, list[full[k + 1]].createdOn);
             && (weeks' == weeks || weeks' == weeks'')
             && StreamSpared(list, full[k], full[k + 1], cutoff, !keep, before, after)
             && (succeed ==>
                   weeks' == weeks'' && StreamSwept(list, full[k], full[k + 1], cutoff, !keep, before, after))
    ensures ThinnedFrom(now, list, full, cutoffs, k, weeks', succeed, start, after)
  {
    hide FullUpTo, Swept, Spared, StreamSwept, StreamSpared, Times, Decide, Retained, CountsWeeks, DaysAgo, Regular,
         CreationTimes;
    FullOrder(list, full);
    var ts, hi := CreationTimes(list, full), full[|full| - 1];
    var marks, may := Discarded(now, ts), MayMarks(now, Exponential, list, full);
    var regular := Regular(now, list, full);
    var keep := Decide(now, weeks, list[full[k]].createdOn, list[full[k + 1]].createdOn).0;
    TimesAndMarks(now, list, full);
    if regular {
      RegularTimes(now, list, full);
      DecideLaggingAt(now, weeks, ts, k);
    }
    SpareStream(list, full, may, cutoffs, cutoff, k, !keep, before, after);
    SparedJoin(list, full, may, cutoffs, full[k], full[k + 1], hi, start, before, after);
    if regular && succeed {
      DecideAt(now, ts, k);
      SweepStream(list, full, marks, cutoffs, cutoff, k, before, after);
      SweptJoin(list, full, marks, cutoffs, full[k], full[k + 1], hi, start, before, after);
    }
  }

  lemma Thinned(now: int, list: seq<Snapshot>, full: seq<nat>, cutoffs: seq<int>, weeks: bool, succeed: bool,
                start: seq<Snapshot>, listing: seq<Snapshot>)
    requires ThinnedFrom(now, list, full, cutoffs, 0, weeks, succeed, start, listing)
    ensures SparedBy(now, Exponential, cutoffs, list, full, start, listing)
    ensures succeed ==> SweptBy(now, Exponential, cutoffs, list, full, start, listing)
  {
    hide Swept, Spared, CountsWeeks, Regular, MayMarks;
  }

  // ---------------------------------------------------------------------------
  // Which full snapshots survive
  // ---------------------------------------------------------------------------

  /** The creation times of the full snapshots, in the order of the list. */
  function FullTimes(list: seq<Snapshot>): seq<int> {
    if list == [] then []
    else (if list[0].IsFull() then [list[0].createdOn] else []) + FullTimes(list[1..])
  }

  lemma {:induction false} FullTimesConcat(a: seq<Snapshot>, b: seq<Snapshot>)
    ensures FullTimes(a + b) == FullTimes(a) + FullTimes(b)
  {
    if a == [] {
      assert a + b == b;
    } else {
      var head := if a[0].IsFull() then [a[0].createdOn] else [];
      assert (a + b)[1..] == a[1..] + b && (a + b)[0] == a[0];
      assert FullTimes(a + b) == head + FullTimes(a[1..] + b) && FullTimes(a) == head + FullTimes(a[1..]);
      hide FullTimes;
      FullTimesConcat(a[1..], b);
    }
  }

  lemma {:induction false} NoFullTimes(list: seq<Snapshot>)
    requires forall i :: 0 <= i < |list| ==> !list[i].IsFull()
    ensures FullTimes(list) == []
  {
    if list != [] { NoFullTimes(list[1..]); }
  }

  /** From an entry of the index list on, the times of the index list are those of the full
      snapshots, the entry itself included whatever it is. */
  lemma {:induction false} IndexTimes(list: seq<Snapshot>, full: seq<nat>, k: nat)
    requires FullUpTo(list, full, |list|) && list != [] && k < |full|
    ensures full[k] < |list|
    ensures CreationTimes(list, full)[k..] == [list[full[k]].createdOn] + FullTimes(list[full[k] + 1..])
    decreases |full| - k
  {
    hide FullTimes, CreationTimes;
    CreationTimesAt(list, full, k);
    var ts := CreationTimes(list, full);
    var rest := list[full[k] + 1..];
    if k + 1 < |full| {
      IndexTimes(list, full, k + 1);
      NoneBetween(list, full, k);
      assert list[full[k + 1]].IsFull() && full[k] < full[k + 1];
      hide FullUpTo;
      SkipToFull(list, full[k] + 1, full[k + 1]);
      assert ts[k..] == [ts[k]] + ts[k + 1..];
    } else {
      NoneBetween(list, full, k);
      NoFullTimes(rest);
      assert ts[k..] == [ts[k]];
    }
  }

  lemma SkipToFull(list: seq<Snapshot>, i: nat, next: nat)
    requires i <= next < |list| && list[next].IsFull() && forall j :: i <= j < next ==> !list[j].IsFull()
    ensures FullTimes(list[i..]) == [list[next].createdOn] + FullTimes(list[next + 1..])
  {
    hide FullTimes;
    var gap := list[i..next];
    assert list[i..] == gap + list[next..];
    FullTimesConcat(gap, list[next..]);
    NoFullTimes(gap);
    TimesFrom(list, next);
    assert [] + FullTimes(list[next..]) == FullTimes(list[next..]);
  }

  lemma CreationTimesAt(list: seq<Snapshot>, full: seq<nat>, k: nat)
    requires FullUpTo(list, full, |list|) && list != [] && k < |full|
    ensures |CreationTimes(list, full)| == |full| && full[k] < |list|
    ensures CreationTimes(list, full)[k] == list[full[k]].createdOn
  {
  }

  lemma OneFullTime(s: Snapshot)
    requires s.IsFull()
    ensures FullTimes([s]) == [s.createdOn]
  {
    assert [s][1..] == [];
  }

  /** Between two entries of the index list, and after the last, there is no full snapshot. */
  lemma NoneBetween(list: seq<Snapshot>, full: seq<nat>, k: nat)
    requires FullUpTo(list, full, |list|) && list != [] && k < |full|
    ensures var end := if k + 1 < |full| then full[k + 1] else |list|;
            forall i :: full[k] < i < end ==> i < |list| && !list[i].IsFull()
  {
    var end := if k + 1 < |full| then full[k + 1] else |list|;
    forall i | full[k] < i < end ensures i < |list| && !list[i].IsFull() {
      SkippedIndex(full, k, i, end);
    }
  }

  lemma SkippedIndex(full: seq<nat>, k: nat, i: nat, end: nat)
    requires k < |full| && forall j, k :: 0 <= j < k < |full| ==> full[j] < full[k]
    requires full[k] < i < end && (k + 1 < |full| ==> end == full[k + 1])
    ensures i !in full
  {
    forall j | 0 <= j < |full| ensures full[j] != i {
      assert j < k ==> full[j] < full[k];
      assert j > k + 1 ==> full[k + 1] < full[j];
    }
  }

  /** The position in the index list of a full snapshot, or of position 0. */
  lemma IndexOfFull(list: seq<Snapshot>, full: seq<nat>, i: nat) returns (k: nat)
    requires FullUpTo(list, full, |list|) && i < |list| && (i == 0 || list[i].IsFull())
    ensures k < |full| && full[k] == i
  {
    if i == 0 {
      k := 0;
    } else {
      assert i in full;
      k :| 0 <= k < |full| && full[k] == i;
    }
  }

  /** A position of the index list is marked exactly by its own mark. */
  lemma MarkedAt(list: seq<Snapshot>, full: seq<nat>, marks: seq<bool>, k: nat)
    requires FullUpTo(list, full, |list|) && k < |full| == |marks|
    ensures Marked(full, marks, full[k]) <==> marks[k]
  {
  }

  lemma NotMarked(list: seq<Snapshot>, full: seq<nat>, marks: seq<bool>, i: nat)
    requires FullUpTo(list, full, |list|) && 0 < i < |list| && !list[i].IsFull()
    ensures !Marked(full, marks, i)
  {
  }

  /** When no delete has failed, an entry of the index list is left if it is the last one, or
      neither marked nor an outdated delta. */
  lemma SweptEntry(list: seq<Snapshot>, full: seq<nat>, marks: seq<bool>, cutoffs: seq<int>, before: seq<Snapshot>,
                   after: seq<Snapshot>, k: nat)
    requires FullUpTo(list, full, |list|) && list != [] && k < |full| == |marks| && |cutoffs| == |list|
    requires Swept(list, full, marks, cutoffs, 0, full[|full| - 1], before, after)
    ensures full[k] < |list|
    ensures list[full[k]] in after <==>
            list[full[k]] in before && (k == |full| - 1 || !(marks[k] || Outdated(list[full[k]], cutoffs[full[k]])))
  {
    hide FullUpTo, Marked;
    FullOrder(list, full);
    MarkedAt(list, full, marks, k);
    assert full[k] <= full[|full| - 1];
  }

  /** A delta that is not first is left if it follows the newest full snapshot or is not outdated. */
  lemma SweptDelta(list: seq<Snapshot>, full: seq<nat>, marks: seq<bool>, cutoffs: seq<int>, before: seq<Snapshot>,
                   after: seq<Snapshot>, i: nat)
    requires FullUpTo(list, full, |list|) && 0 < i < |list| && list[i].IsDelta() && |cutoffs| == |list|
    requires Swept(list, full, marks, cutoffs, 0, full[|full| - 1], before, after)
    ensures list[i] in after <==> list[i] in before && (i > LastFull(list) || list[i].createdOn >= cutoffs[i])
  {
    hide LastFull, Marked, FullUpTo;
    LastOfFull(list, full);
    LastFullIsFull(list);
    NotMarked(list, full, marks, i);
    FullOrder(list, full);
  }

  /** Whether a window retains the first full snapshot of these. */
  predicate RetainedFrom(now: int, list: seq<Snapshot>) {
    FullTimes(list) != [] && Retained(now, FullTimes(list))
  }

  /** The exponential policy when no delete has failed. A full snapshot is left if and only if a window retains
      it, a delta that is not first if and only if it follows the newest full snapshot or is not
      outdated. A delta at the first position is treated as a full snapshot on top of that. */
  lemma ExponentialSurvivors(now: int, list: seq<Snapshot>, full: seq<nat>, cutoffs: seq<int>, before: seq<Snapshot>,
                             after: seq<Snapshot>, i: nat)
    requires SweptBy(now, Exponential, cutoffs, list, full, before, after) && Regular(now, list, full)
    requires i < |list| && !list[i].isChunk
    ensures list[i] in after <==>
            && list[i] in before
            && if list[i].IsFull() then RetainedFrom(now, list[i..])
               else if i > LastFull(list) then true
               else if i > 0 then list[i].createdOn >= cutoffs[i]
               else list[0].createdOn >= cutoffs[0] && Retained(now, [list[0].createdOn] + FullTimes(list))
  {
    hide LastFull, FullUpTo, Swept, Retained, CreationTimes, Times, FullTimes, DaysAgo;
    var marks := Marks(now, Exponential, list, full);
    LastOfFull(list, full);
    LastFullIsFull(list);
    FullOrder(list, full);
    if list[i].IsFull() || i == 0 {
      var k := IndexOfFull(list, full, i);
      SweptEntry(list, full, marks, cutoffs, before, after, k);
      var ts := CreationTimes(list, full);
      CreationTimesAt(list, full, k);
      IndexTimes(list, full, k);
      TimesFrom(list, i);
      assert list[0..] == list;
      assert [] + FullTimes(list[1..]) == FullTimes(list[1..]);
      if k == |full| - 1 { OnlyIsRetained(now, ts[k..]); }
    } else {
      SweptDelta(list, full, marks, cutoffs, before, after, i);
    }
  }

  lemma TimesFrom(list: seq<Snapshot>, i: nat)
    requires i < |list|
    ensures FullTimes(list[i..]) == (if list[i].IsFull() then [list[i].createdOn] else []) + FullTimes(list[i + 1..])
  {
    assert list[i..][1..] == list[i + 1..];
    assert list[i..][0] == list[i];
  }

  /** The limit policy when no delete has failed. A full snapshot is left if and only if it is among the newest
      `maxBackups`, or the newest one; deltas as above. A delta at the first position counts as a
      full snapshot, and goes as soon as the others reach the limit. */
  lemma LimitSurvivors(now: int, list: seq<Snapshot>, full: seq<nat>, maxBackups: nat, cutoffs: seq<int>,
                       before: seq<Snapshot>, after: seq<Snapshot>, i: nat)
    requires SweptBy(now, LimitBased(maxBackups), cutoffs, list, full, before, after)
    requires i < |list| && !list[i].isChunk
    ensures list[i] in after <==>
            && list[i] in before
            && if list[i].IsFull() then i == LastFull(list) || |FullTimes(list[i..])| <= maxBackups
               else if i > LastFull(list) then true
               else if i > 0 then list[i].createdOn >= cutoffs[i]
               else list[0].createdOn >= cutoffs[0] && |FullTimes(list)| < maxBackups
  {
    hide LastFull, FullUpTo, Swept, CreationTimes, FullTimes;
    var marks := Marks(now, LimitBased(maxBackups), list, full);
    LastOfFull(list, full);
    LastFullIsFull(list);
    FullOrder(list, full);
    if list[i].IsFull() || i == 0 {
      var k := IndexOfFull(list, full, i);
      SweptEntry(list, full, marks, cutoffs, before, after, k);
      CreationTimesAt(list, full, k);
      IndexTimes(list, full, k);
      TimesFrom(list, i);
      assert |CreationTimes(list, full)[k..]| == |full| - k;
    } else {
      SweptDelta(list, full, marks, cutoffs, before, after, i);
    }
  }

  /** Whatever fails and however long the pass takes, the limit policy never deletes one of the
      newest `maxBackups` full snapshots, the newest one, or a delta that is not outdated, but for
      one at the first position. */
  lemma LimitSpares(now: int, list: seq<Snapshot>, full: seq<nat>, maxBackups: nat, cutoffs: seq<int>,
                    before: seq<Snapshot>, after: seq<Snapshot>, i: nat)
    requires SparedBy(now, LimitBased(maxBackups), cutoffs, list, full, before, after)
    requires i < |list| && !list[i].isChunk && list[i] in before
    requires if list[i].IsFull() then i == LastFull(list) || |FullTimes(list[i..])| <= maxBackups
             else i > LastFull(list) || (i > 0 && list[i].createdOn >= cutoffs[i])
    ensures list[i] in after
  {
    hide LastFull, FullUpTo, CreationTimes, FullTimes, Marked;
    var marks := MayMarks(now, LimitBased(maxBackups), list, full);
    LastOfFull(list, full);
    LastFullIsFull(list);
    FullOrder(list, full);
    if list[i].IsFull() {
      var k := IndexOfFull(list, full, i);
      MarkedAt(list, full, marks, k);
      CreationTimesAt(list, full, k);
      IndexTimes(list, full, k);
      TimesFrom(list, i);
      assert |CreationTimes(list, full)[k..]| == |full| - k;
    } else if i > 0 {
      NotMarked(list, full, marks, i);
    }
  }

  /** Nor does the exponential policy delete a full snapshot that a window retains, unless it is of
      the oldest day of the oldest week; deltas as above. */
  lemma ExponentialSpares(now: int, list: seq<Snapshot>, full: seq<nat>, cutoffs: seq<int>, before: seq<Snapshot>,
                          after: seq<Snapshot>, i: nat)
    requires SparedBy(now, Exponential, cutoffs, list, full, before, after)
    requires i < |list| && !list[i].isChunk && list[i] in before
    requires if list[i].IsFull()
             then i == LastFull(list) || (&& Regular(now, list, full) && RetainedFrom(now, list[i..])
                                          && DaysAgo(now, list[i].createdOn) != 35)
             else i > LastFull(list) || (i > 0 && list[i].createdOn >= cutoffs[i])
    ensures list[i] in after
  {
    hide LastFull, FullUpTo, CreationTimes, FullTimes, Retained, DaysAgo, Marked, Times;
    var marks := MayMarks(now, Exponential, list, full);
    LastOfFull(list, full);
    LastFullIsFull(list);
    FullOrder(list, full);
    if list[i].IsFull() {
      var k := IndexOfFull(list, full, i);
      MarkedAt(list, full, marks, k);
      CreationTimesAt(list, full, k);
      IndexTimes(list, full, k);
      TimesFrom(list, i);
    } else if i > 0 {
      NotMarked(list, full, marks, i);
    }
  }

  /** So a listing that starts with a delta loses it under the limit policy as soon as it has
      `maxBackups` full snapshots, however young the delta is. */
  lemma FirstDeltaIsLost(now: int, list: seq<Snapshot>, full: seq<nat>, maxBackups: nat, cutoffs: seq<int>,
                         before: seq<Snapshot>, after: seq<Snapshot>)
    requires SweptBy(now, LimitBased(maxBackups), cutoffs, list, full, before, after)
    requires list != [] && list[0].IsDelta() && LastFull(list) > 0 && |FullTimes(list)| >= maxBackups
    ensures list[0] !in after
  {
    hide LastFull, FullTimes, SweptBy;
    LimitSurvivors(now, list, full, maxBackups, cutoffs, before, after, 0);
  }

  /** For example, with a limit of one and a listing of a young delta and a full snapshot. */
  lemma YoungDeltaIsDeleted(now: int, cutoff: int, after: seq<Snapshot>)
    ensures var young := Snapshot(Incr, 1, 2, cutoff + 1, "", false, false, None);
            var full := Snapshot(Full, 0, 3, cutoff + 2, "", false, false, None);
            var list := [young, full];
            && !Outdated(young, cutoff)
            && (SweptBy(now, LimitBased(1), [cutoff, cutoff], list, [0, 1], list, after) ==> young !in after)
  {
    var young := Snapshot(Incr, 1, 2, cutoff + 1, "", false, false, None);
    var full := Snapshot(Full, 0, 3, cutoff + 2, "", false, false, None);
    var cutoffs := [cutoff, cutoff];
    var list := [young, full];
    assert list[1..] == [full] && [full][1..] == [];
    assert FullTimes([full]) == [cutoff + 2];
    assert LastFull(list) == 1;
    hide SweptBy, FullTimes, LastFull;
    if SweptBy(now, LimitBased(1), cutoffs, list, [0, 1], list, after) {
      FirstDeltaIsLost(now, list, [0, 1], 1, cutoffs, list, after);
    }
  }

  // ---------------------------------------------------------------------------
  // A second pass
  // ---------------------------------------------------------------------------

  /** Creation times in the order of the listing, none in the future, and some full snapshot. */
  ghost predicate Chronological(now: int, list: seq<Snapshot>) {
    InOrder(list, now) && LastFull(list) >= 0
  }

  lemma ChronologicalIsRegular(now: int, list: seq<Snapshot>, full: seq<nat>)
    requires Chronological(now, list) && FullUpTo(list, full, |list|)
    ensures Regular(now, list, full)
  {
    hide LastFull, DaysAgo;
    LastOfFull(list, full);
  }

  lemma {:induction false} FullTimesInOrder(now: int, list: seq<Snapshot>)
    requires forall i :: 0 <= i < |list| ==> list[i].createdOn <= now
    requires forall i, j :: 0 <= i < j < |list| ==> list[i].createdOn <= list[j].createdOn
    ensures Times(now, FullTimes(list))
    ensures list != [] ==> forall k :: 0 <= k < |FullTimes(list)| ==> list[0].createdOn <= FullTimes(list)[k]
  {
    if list != [] {
      var rest := FullTimes(list[1..]);
      FullTimesInOrder(now, list[1..]);
      forall k | 0 <= k < |rest| ensures list[0].createdOn <= rest[k] {
        assert |list| > 1;
        assert list[0].createdOn <= list[1].createdOn <= rest[k];
      }
    }
  }

  lemma NewestFullTime(list: seq<Snapshot>)
    requires LastFull(list) >= 0
    ensures var ts := FullTimes(list); ts != [] && ts[|ts| - 1] == list[LastFull(list)].createdOn
  {
    hide LastFull, FullTimes;
    LastFullIsFull(list);
    LastFullIsLast(list);
    var k := LastFull(list);
    assert list == list[..k] + [list[k]] + list[k + 1..];
    FullTimesConcat(list[..k] + [list[k]], list[k + 1..]);
    FullTimesConcat(list[..k], [list[k]]);
    OneFullTime(list[k]);
    NoFullTimes(list[k + 1..]);
  }

  lemma {:induction false} RemainingConcat(a: seq<Snapshot>, b: seq<Snapshot>, listing: seq<Snapshot>)
    ensures Remaining(a + b, listing) == Remaining(a, listing) + Remaining(b, listing)
  {
    if b == [] {
      assert a + b == a;
    } else {
      assert (a + b)[..|a + b| - 1] == a + b[..|b| - 1];
      RemainingConcat(a, b[..|b| - 1], listing);
    }
  }

  lemma RemainingOne(x: Snapshot, listing: seq<Snapshot>)
    ensures Remaining([x], listing) == if x in listing then [x] else []
  {
    assert [x][..0] == [];
  }

  /** If a full snapshot is left exactly when a window retains it, then the times of those left
      are the survivors of the times before. */
  lemma {:induction false} SurvivingTimes(now: int, list: seq<Snapshot>, after: seq<Snapshot>)
    requires forall i :: 0 <= i < |list| && list[i].IsFull() ==>
               (list[i] in after <==> RetainedFrom(now, list[i..]))
    ensures FullTimes(Remaining(list, after)) == Survivors(now, FullTimes(list))
  {
    hide Retained, Remaining;
    if list == [] {
      assert Remaining(list, after) == [] by { AllRemain([], after); }
    } else {
      var x, rest := list[0], list[1..];
      forall i | 0 <= i < |rest| && rest[i].IsFull() ensures rest[i] in after <==> RetainedFrom(now, rest[i..]) {
        assert rest[i] == list[i + 1] && rest[i..] == list[i + 1..];
      }
      SurvivingTimes(now, rest, after);
      assert list == [x] + rest && list[0..] == list;
      RemainingConcat([x], rest, after);
      RemainingOne(x, after);
      FullTimesConcat(if x in after then [x] else [], Remaining(rest, after));
      if x.IsFull() {
        OneFullTime(x);
        assert FullTimes(list)[1..] == FullTimes(rest);
        assert list[0] in after <==> RetainedFrom(now, list[0..]);
      } else {
        NoFullTimes([x]);
        assert FullTimes([]) == [];
        assert FullTimes(list) == FullTimes(rest);
      }
    }
  }

  /** What the exponential policy leaves of a chronological listing. */
  lemma ExponentialLeaves(now: int, list: seq<Snapshot>, full: seq<nat>, cutoffs: seq<int>, after: seq<Snapshot>)
    requires SweptBy(now, Exponential, cutoffs, list, full, list, after) && Chronological(now, list)
    requires NoChunks(list)
    ensures FullTimes(Remaining(list, after)) == Survivors(now, FullTimes(list))
  {
    hide SweptBy, Retained, LastFull, FullTimes, Remaining;
    SweptIndex(now, cutoffs, list, full, after);
    ChronologicalIsRegular(now, list, full);
    forall i | 0 <= i < |list| && list[i].IsFull() ensures list[i] in after <==> RetainedFrom(now, list[i..]) {
      ExponentialSurvivors(now, list, full, cutoffs, list, after, i);
    }
    SurvivingTimes(now, list, after);
  }

  lemma SweptIndex(now: int, cutoffs: seq<int>, list: seq<Snapshot>, full: seq<nat>, after: seq<Snapshot>)
    requires SweptBy(now, Exponential, cutoffs, list, full, list, after)
    ensures FullUpTo(list, full, |list|)
  {
  }

  /** In the order of creation, and none after `latest`. */
  ghost predicate InOrder(list: seq<Snapshot>, latest: int) {
    && (forall i :: 0 <= i < |list| ==> list[i].createdOn <= latest)
    && (forall i, j :: 0 <= i < j < |list| ==> list[i].createdOn <= list[j].createdOn)
  }

  lemma {:induction false} RemainingInOrder(list: seq<Snapshot>, listing: seq<Snapshot>, latest: int)
    requires InOrder(list, latest)
    ensures InOrder(Remaining(list, listing), latest)
  {
    if list != [] {
      var init, last := list[..|list| - 1], list[|list| - 1];
      var rest := Remaining(init, listing);
      RemainingInOrder(init, listing, last.createdOn);
      var left := rest + if last in listing then [last] else [];
      assert Remaining(list, listing) == left;
      hide Remaining;
      assert forall i :: 0 <= i < |left| ==> left[i].createdOn <= last.createdOn;
    }
  }

  lemma SomeFull(list: seq<Snapshot>)
    requires FullTimes(list) != []
    ensures LastFull(list) >= 0
  {
    hide FullTimes;
    if LastFull(list) < 0 { NoFullTimes(list); }
  }

  /** What is left of a chronological listing is chronological. */
  lemma LeftIsChronological(now: int, list: seq<Snapshot>, full: seq<nat>, cutoffs: seq<int>, after: seq<Snapshot>)
    requires SweptBy(now, Exponential, cutoffs, list, full, list, after) && Chronological(now, list) && NoChunks(list)
    ensures Chronological(now, Remaining(list, after))
  {
    hide SweptBy, LastFull, FullTimes, Remaining, Survivors;
    ExponentialLeaves(now, list, full, cutoffs, after);
    RemainingInOrder(list, after, now);
    NewestFullTime(list);
    SurvivorsMembers(now, FullTimes(list));
    SomeFull(Remaining(list, after));
  }

  /** After the exponential policy at most 34 full snapshots are left beside the newest one and
      those of the current hour. A second pass at the same time deletes no full snapshot, if and
      only if the oldest week does not depend on one that the first pass deletes. */
  lemma SecondPass(now: int, list: seq<Snapshot>, full: seq<nat>, cutoffs: seq<int>, between: seq<Snapshot>,
                   full': seq<nat>, cutoffs': seq<int>, after: seq<Snapshot>)
    requires SweptBy(now, Exponential, cutoffs, list, full, list, between) && Chronological(now, list) && NoChunks(list)
    requires var left := Remaining(list, between); SweptBy(now, Exponential, cutoffs', left, full', left, after)
    ensures var left := Remaining(list, between);
            && ((forall s :: s in left && s.IsFull() ==> s in after) <==> !LosesWeek(now, FullTimes(list)))
            && |Archived(now, FullTimes(left))| <= 34
  {
    hide SweptBy, LastFull, FullTimes, Remaining, Survivors, Archived, LosesWeek, Windows;
    var left := Remaining(list, between);
    LeftIsChronological(now, list, full, cutoffs, between);
    LeftAreNoChunks(list, between);
    ExponentialLeaves(now, list, full, cutoffs, between);
    ExponentialLeaves(now, left, full', cutoffs', after);
    FullTimesInOrder(now, list);
    NewestFullTime(list);
    SurvivorsIdempotent(now, FullTimes(list));
    AtMost34(now, FullTimes(list));
    AllFullTimes(left, after);
  }

  /** All full snapshots are left if and only if all their times are. */
  lemma {:induction false} AllFullTimes(list: seq<Snapshot>, after: seq<Snapshot>)
    ensures |FullTimes(Remaining(list, after))| <= |FullTimes(list)|
    ensures FullTimes(Remaining(list, after)) == FullTimes(list) <==>
            forall s :: s in list && s.IsFull() ==> s in after
  {
    hide Remaining;
    if list == [] {
      assert Remaining(list, after) == [] by { AllRemain([], after); }
    } else {
      var x, rest := list[0], list[1..];
      AllFullTimes(rest, after);
      assert list == [x] + rest;
      RemainingConcat([x], rest, after);
      RemainingOne(x, after);
      FullTimesConcat(if x in after then [x] else [], Remaining(rest, after));
      assert FullTimes([]) == [];
      var head := if x.IsFull() then [x.createdOn] else [];
      if x.IsFull() { OneFullTime(x); } else { NoFullTimes([x]); }
      var times, left := FullTimes(rest), FullTimes(Remaining(rest, after));
      assert FullTimes(list) == head + times;
      assert FullTimes(Remaining(list, after)) == (if x in after then head else []) + left;
      hide FullTimes;
      assert (head + times)[|head|..] == times && (head + left)[|head|..] == left && [] + left == left;
    }
  }

  lemma LeftAreNoChunks(list: seq<Snapshot>, listing: seq<Snapshot>)
    requires NoChunks(list)
    ensures NoChunks(Remaining(list, listing))
  {
    hide Remaining;
    RemainingMembers(list, listing);
    var left := Remaining(list, listing);
    forall i | 0 <= i < |left| ensures !left[i].isChunk {
      assert left[i] in left;
    }
  }
}

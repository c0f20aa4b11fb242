/** What a restore that reports success guarantees: no revision is missing or applied twice,
    and the result is the original etcd. */
module RestoreTheorems {
  import opened Etcd
  import opened Restorer

  // ---------------------------------------------------------------------------
  // Gap detection
  // ---------------------------------------------------------------------------

  ghost predicate SortedByRevision(events: seq<Event>) {
    && (forall i :: 0 <= i < |events| ==> events[i].modRevision >= 1)
    && (forall i, j :: 0 <= i <= j < |events| ==> events[i].modRevision <= events[j].modRevision)
  }

  /** What TakeDeltaSnapshot writes: events in order, named after the last one. */
  ghost predicate WellLabelled(d: Delta) {
    d.events != [] && SortedByRevision(d.events) && d.lastRevision == LastEventRevision(d.events)
  }

  /** Deltas whose events lie in disjoint, increasing ranges of revisions. */
  ghost predicate IncreasingRanges(deltas: seq<Delta>) {
    && (forall i :: 0 <= i < |deltas| ==> WellLabelled(deltas[i]))
    && (forall i, j :: 0 <= i < j < |deltas| && j == i + 1 ==>
                         deltas[i].lastRevision < deltas[j].events[0].modRevision)
  }

  function Interval(lo: int, hi: int): (s: seq<int>)
    requires lo <= hi + 1
    ensures |s| == hi - lo + 1
    ensures forall i :: 0 <= i < |s| ==> s[i] == lo + i
  {
    seq(hi - lo + 1, i => lo + i)
  }

  /** The revisions of the transactions that the events are committed as. */
  function Revisions(events: seq<Event>): seq<int> {
    if events == [] then []
    else
      var groups := Regroup(events);
      seq(|groups|, i requires 0 <= i < |groups| => LastEventRevision(groups[i]))
  }

  function AppliedEvents(base: Db, delta: Delta, first: bool): seq<Event> {
    if !first then delta.events
    else if base.revision == delta.lastRevision then []
    else BeyondBase(delta.events, base.revision)
  }

  /** The revisions committed by a restore of `deltas` over `base`, in order. */
  function AppliedRevisions(base: Db, deltas: seq<Delta>): seq<int> {
    if deltas == [] then []
    else
      var last := |deltas| - 1;
      AppliedRevisions(base, deltas[..last]) + Revisions(AppliedEvents(base, deltas[last], last == 0))
  }

  ghost predicate OneRevision(group: seq<Event>) {
    group != [] && forall i :: 0 <= i < |group| ==> group[i].modRevision == group[0].modRevision
  }

  /** Each group holds one revision, and the revisions strictly increase from the first
      event's to the last event's. */
  ghost predicate ProperGroups(events: seq<Event>, groups: seq<seq<Event>>) {
    && events != [] && groups != []
    && (forall i :: 0 <= i < |groups| ==> OneRevision(groups[i]))
    && (forall i, j :: 0 <= i < j < |groups| ==> groups[i][0].modRevision < groups[j][0].modRevision)
    && groups[0][0] == events[0]
    && groups[|groups| - 1][0].modRevision == LastEventRevision(events)
  }

  lemma RegroupSingle(e: Event)
    ensures Regroup([e]) == [[e]]
  {
    assert [e][..0] == [];
    assert Regroup([]) == [[]];
    assert [] + [e] == [e];
  }

  lemma {:induction false} RegroupSorted(events: seq<Event>)
    requires events != [] && SortedByRevision(events)
    ensures ProperGroups(events, Regroup(events))
  {
    hide Regroup, ProperGroups;
    var last := |events| - 1;
    var init, e := events[..last], events[last];
    assert events == init + [e];
    if init == [] {
      RegroupSingle(e);
      ProperSingle(e);
      assert events == [e];
    } else {
      SortedInit(events);
      hide SortedByRevision;
      RegroupSorted(init);
      RegroupSnoc(init, e);
      if e.modRevision > LastEventRevision(init) {
        ProperStart(init, Regroup(init), e);
      } else {
        ProperJoin(init, Regroup(init), e);
      }
    }
  }

  lemma SortedInit(events: seq<Event>)
    requires |events| > 1 && SortedByRevision(events)
    ensures var init := events[..|events| - 1];
            SortedByRevision(init) && 1 <= LastEventRevision(init) <= events[|events| - 1].modRevision
  {
  }

  lemma ProperSingle(e: Event)
    ensures ProperGroups([e], [[e]])
  {
    assert OneRevision([e]);
  }

  lemma ProperStart(init: seq<Event>, groups: seq<seq<Event>>, e: Event)
    requires ProperGroups(init, groups)
    requires LastEventRevision(init) < e.modRevision
    ensures ProperGroups(init + [e], groups + [[e]])
  {
    assert OneRevision([e]);
    forall i | 0 <= i < |groups| ensures groups[i][0].modRevision < e.modRevision {
      assert i < |groups| - 1 ==> groups[i][0].modRevision < groups[|groups| - 1][0].modRevision;
    }
  }

  lemma ProperJoin(init: seq<Event>, groups: seq<seq<Event>>, e: Event)
    requires ProperGroups(init, groups)
    requires LastEventRevision(init) == e.modRevision
    ensures var k := |groups| - 1; ProperGroups(init + [e], groups[..k] + [groups[k] + [e]])
  {
    var k := |groups| - 1;
    var next := groups[..k] + [groups[k] + [e]];
    assert OneRevision(groups[k] + [e]);
    assert forall i :: 0 <= i < |next| ==> next[i] != [] && next[i][0] == groups[i][0];
    hide OneRevision;
  }

  /** A replay that succeeds takes at most one revision per group, and never goes back. */
  lemma {:induction false} ReplayAdvances(db: Db, groups: seq<seq<Event>>)
    ensures db.revision <= Replay(db, groups).db.revision <= db.revision + |groups|
  {
    if groups != [] {
      ReplayAdvances(db, groups[..|groups| - 1]);
    }
  }

  ghost predicate StrictlyIncreasing(s: seq<int>) {
    forall i, j :: 0 <= i < j < |s| ==> s[i] < s[j]
  }

  lemma {:induction false} Spread(s: seq<int>, i: nat, j: nat)
    requires StrictlyIncreasing(s)
    requires i <= j < |s|
    ensures s[j] - s[i] >= j - i
  {
    if i < j {
      Spread(s, i, j - 1);
    }
  }

  /** Pigeonhole: as many increasing numbers as an interval holds are the interval. */
  lemma IncreasingFills(s: seq<int>, lo: int)
    requires StrictlyIncreasing(s)
    requires s != [] && lo < s[0] && s[|s| - 1] <= lo + |s|
    ensures s == Interval(lo + 1, lo + |s|)
  {
    forall i | 0 <= i < |s| ensures s[i] == lo + 1 + i {
      Spread(s, 0, i);
      Spread(s, i, |s| - 1);
    }
  }

  lemma RevisionsIncrease(events: seq<Event>)
    requires events != [] && SortedByRevision(events)
    ensures Revisions(events) != [] && StrictlyIncreasing(Revisions(events))
    ensures |Revisions(events)| == |Regroup(events)|
    ensures Revisions(events)[0] == events[0].modRevision
    ensures Revisions(events)[|Revisions(events)| - 1] == LastEventRevision(events)
  {
    hide Regroup, SortedByRevision;
    RegroupSorted(events);
    var groups := Regroup(events);
    forall i | 0 <= i < |groups| ensures LastEventRevision(groups[i]) == groups[i][0].modRevision {
      assert OneRevision(groups[i]);
    }
  }

  /** Groups above `db` whose replay ends exactly at the last of them leave no revision out. */
  lemma ReplayFills(db: Db, events: seq<Event>)
    requires events != [] && SortedByRevision(events)
    requires forall e :: e in events ==> e.modRevision > db.revision
    requires Replay(db, Regroup(events)).db.revision == LastEventRevision(events)
    ensures db.revision < LastEventRevision(events)
    ensures Revisions(events) == Interval(db.revision + 1, LastEventRevision(events))
  {
    hide Regroup, Replay, Revisions, SortedByRevision;
    var revs := Revisions(events);
    RevisionsIncrease(events);
    assert events[0] in events;
    ReplayAdvances(db, Regroup(events));
    Spread(revs, 0, |revs| - 1);
    IncreasingFills(revs, db.revision);
  }

  /** Gap detection: success means that each revision after the base, up to the last delta's,
      was committed exactly once. */
  lemma GapDetection(base: Db, deltas: seq<Delta>)
    requires IncreasingRanges(deltas)
    requires deltas != [] && Restore(base, deltas).Restored?
    ensures base.revision <= deltas[0].lastRevision
    ensures base.revision <= deltas[|deltas| - 1].lastRevision == Restore(base, deltas).db.revision
    ensures AppliedRevisions(base, deltas) == Interval(base.revision + 1, deltas[|deltas| - 1].lastRevision)
  {
    hide Restore, AppliedRevisions, SortedByRevision, LastEventRevision;
    LabelsDecide(base, deltas);
    RestoreGains(base, deltas);
    RestoreStops(base, deltas, 1);
    RestoreGains(base, deltas[..1]);
  }

  lemma FirstDeltaFills(base: Db, d: Delta)
    requires WellLabelled(d)
    requires ApplyAndVerify(base, d, true).ok
    ensures base.revision <= d.lastRevision
    ensures Revisions(AppliedEvents(base, d, true)) == Interval(base.revision + 1, d.lastRevision)
  {
    hide Regroup, Replay;
    if base.revision != d.lastRevision {
      var index := FirstBeyond(d.events, base.revision);
      var events := BeyondBase(d.events, base.revision);
      ReplayAdvances(base, Regroup(events));
      if index == |d.events| {
        assert false;
      } else {
        assert LastEventRevision(events) == LastEventRevision(d.events);
        assert forall i :: 0 <= i < |events| ==> events[i] == d.events[index + i];
        ReplayFills(base, events);
      }
    }
  }

  // ---------------------------------------------------------------------------
  // The label matters
  // ---------------------------------------------------------------------------

  /** Deltas with events in order that start above the label of the delta before, whatever
      their own labels are. */
  ghost predicate EventRanges(deltas: seq<Delta>) {
    && (forall i :: 0 <= i < |deltas| ==> deltas[i].events != [] && SortedByRevision(deltas[i].events))
    && (forall i, j :: 0 <= i < j < |deltas| && j == i + 1 ==>
                         deltas[i].lastRevision < deltas[j].events[0].modRevision)
  }

  /** The delta is named after its last event, or it is skipped as already in the base. */
  predicate LabelOk(base: Db, d: Delta, first: bool) {
    d.lastRevision == LastEventRevision(d.events) || (first && base.revision == d.lastRevision)
  }

  ghost predicate AllLabelled(base: Db, deltas: seq<Delta>) {
    forall i :: 0 <= i < |deltas| ==> LabelOk(base, deltas[i], i == 0)
  }

  lemma LabelledStep(base: Db, deltas: seq<Delta>)
    requires deltas != []
    ensures var last := |deltas| - 1;
            AllLabelled(base, deltas) <==> AllLabelled(base, deltas[..last]) && LabelOk(base, deltas[last], last == 0)
  {
    hide LabelOk;
    var init := deltas[..|deltas| - 1];
    assert forall i :: 0 <= i < |init| ==> init[i] == deltas[i];
  }

  lemma AppliedEnd(db: Db, d: Delta, first: bool)
    requires d.events != [] && SortedByRevision(d.events)
    ensures var events := AppliedEvents(db, d, first);
            && SortedByRevision(events)
            && (events == [] <==> first && db.revision == d.lastRevision)
            && (events != [] ==> LastEventRevision(events) == LastEventRevision(d.events))
  {
    var index := FirstBeyond(d.events, db.revision);
    var events := AppliedEvents(db, d, first);
    assert events == [] || events == d.events || events == d.events[index..];
  }

  /** A delta that passes the check counts the revision up by at most one per transaction. */
  lemma DeltaGains(db: Db, d: Delta, first: bool)
    requires ApplyAndVerify(db, d, first).ok && d.events != []
    ensures db.revision <= d.lastRevision <= db.revision + |Revisions(AppliedEvents(db, d, first))|
  {
    hide Regroup, Replay;
    ReplayAdvances(db, Regroup(AppliedEvents(db, d, first)));
  }

  lemma {:induction false} RestoreGains(base: Db, deltas: seq<Delta>)
    requires forall i :: 0 <= i < |deltas| ==> deltas[i].events != []
    requires Restore(base, deltas).Restored?
    ensures var r := Restore(base, deltas).db.revision;
            && base.revision <= r <= base.revision + |AppliedRevisions(base, deltas)|
            && (deltas != [] ==> r == deltas[|deltas| - 1].lastRevision)
  {
    hide Revisions, AppliedEvents, ApplyFirst, Replay, Regroup;
    if deltas != [] {
      var last := |deltas| - 1;
      var before := Restore(base, deltas[..last]).db;
      RestoreGains(base, deltas[..last]);
      DeltaGains(before, deltas[last], last == 0);
      if last > 0 { LaterLabel(base, before, deltas[last]); }
    }
  }

  /** What the last delta adds does not depend on the base but for the first delta. */
  lemma AppliedStep(base: Db, deltas: seq<Delta>)
    requires deltas != []
    ensures var last := |deltas| - 1;
            var added := Revisions(AppliedEvents(base, deltas[last], last == 0));
            AppliedRevisions(base, deltas) == AppliedRevisions(base, deltas[..last]) + added
  {
  }

  /** The first delta that passes the check has filled the gap to its label if and only if the
      label is right. */
  lemma FirstLabelDecides(base: Db, d: Delta)
    requires d.events != [] && SortedByRevision(d.events) && ApplyAndVerify(base, d, true).ok
    ensures base.revision <= d.lastRevision
    ensures Revisions(AppliedEvents(base, d, true)) == Interval(base.revision + 1, d.lastRevision)
       <==> LabelOk(base, d, true)
  {
    hide Regroup, Replay, Revisions, ApplyFirst, SortedByRevision;
    DeltaGains(base, d, true);
    AppliedEnd(base, d, true);
    var events := AppliedEvents(base, d, true);
    if base.revision == d.lastRevision {
      NoRevisions();
    } else if LastEventRevision(d.events) == d.lastRevision {
      FirstDeltaFills(base, d);
    } else {
      RevisionsIncrease(events);
    }
  }

  lemma NoRevisions()
    ensures Revisions([]) == []
  {
  }

  /** The same for a later delta. */
  lemma NextLabelDecides(db: Db, d: Delta)
    requires d.events != [] && SortedByRevision(d.events) && ApplyAndVerify(db, d, false).ok
    requires db.revision < d.events[0].modRevision
    ensures db.revision <= d.lastRevision
    ensures Revisions(d.events) == Interval(db.revision + 1, d.lastRevision) <==> LabelOk(db, d, false)
  {
    hide Regroup, Replay, Revisions;
    DeltaGains(db, d, false);
    RevisionsIncrease(d.events);
    if LastEventRevision(d.events) == d.lastRevision {
      ReplayFills(db, d.events);
    }
  }

  lemma IntervalParts(s: seq<int>, t: seq<int>, lo: int, mid: int, hi: int)
    requires lo <= mid + 1 && mid <= hi && |s| == mid - lo + 1
    ensures s + t == Interval(lo, hi) <==> s == Interval(lo, mid) && t == Interval(mid + 1, hi)
  {
    if s + t == Interval(lo, hi) {
      assert s == (s + t)[..|s|] && t == (s + t)[|s|..];
    }
  }

  /** A restore that succeeds has committed every revision up to the last label exactly once if
      and only if every label is right. */
  lemma {:induction false} LabelsDecide(base: Db, deltas: seq<Delta>)
    requires EventRanges(deltas) && deltas != [] && Restore(base, deltas).Restored?
    ensures base.revision <= deltas[|deltas| - 1].lastRevision
    ensures AppliedRevisions(base, deltas) == Interval(base.revision + 1, deltas[|deltas| - 1].lastRevision)
       <==> AllLabelled(base, deltas)
  {
    hide Revisions, AppliedEvents, ApplyFirst, Replay, Regroup, SortedByRevision, LabelOk, AllLabelled,
         AppliedRevisions;
    var last := |deltas| - 1;
    var init, d := deltas[..last], deltas[last];
    LabelledStep(base, deltas);
    RestoreGains(base, deltas);
    AppliedStep(base, deltas);
    if last == 0 {
      assert init == [];
      NothingApplied(base);
      FirstLabelDecides(base, d);
    } else {
      RestoreGains(base, init);
      LabelsDecide(base, init);
      var db := Restore(base, init).db;
      LaterLabel(base, db, d);
      NextLabelDecides(db, d);
      var before, added := AppliedRevisions(base, init), Revisions(d.events);
      DeltaGains(db, d, false);
      if |before| == db.revision - base.revision {
        IntervalParts(before, added, base.revision + 1, db.revision, d.lastRevision);
      } else {
        assert |before + added| > d.lastRevision - base.revision;
      }
    }
  }

  lemma NothingApplied(base: Db)
    ensures AppliedRevisions(base, []) == [] && AllLabelled(base, [])
  {
  }

  lemma LaterLabel(base: Db, db: Db, d: Delta)
    ensures LabelOk(base, d, false) <==> LabelOk(db, d, false)
    ensures AppliedEvents(base, d, false) == AppliedEvents(db, d, false) == d.events
  {
  }

  /** A delta named past its last event can hide a missing revision: over the etcd of revision 2
      the delta brings no event of revision 3, yet the restore succeeds, with another key map
      than the original had. */
  lemma MislabelledDeltaHidesGap()
    ensures var h := [[Event(Put, "a", "1", 2)], [Event(Put, "b", "1", 3)]];
            var delta := Delta(2, 3, Between(h, 2, 2));
            var r := Restore(StateAt(h, 2), [delta]);
            && ValidHistory(h)
            && (forall e :: e in delta.events ==> e.modRevision < 3)
            && r.Restored? && r.db.revision == 3 && r.db != StateAt(h, 3)
  {
    var e, f := Event(Put, "a", "1", 2), Event(Put, "b", "1", 3);
    var h := [[e], [f]];
    assert EventsAt(h, 2) == [e] && EventsAt(h, 3) == [f];
    assert ValidAt(h, 2) && ValidAt(h, 3);
    assert Between(h, 2, 1) == [];
    assert Between(h, 2, 2) == [e];
    MislabelledStates(h, e, f);
    hide Restore, KvAt, ValidHistory, Between;
    RepeatedPut(StateAt(h, 2), e);
  }

  /** Over the etcd that has it already, one more put passes as the next revision. */
  lemma RepeatedPut(db: Db, e: Event)
    requires e.kind.Put? && db.revision == e.modRevision > 0
    ensures Restore(db, [Delta(e.modRevision, e.modRevision + 1, [e])])
         == Restored(Db(db.kv[e.key := e.value], e.modRevision + 1))
  {
    RegroupSingle(e);
    PutCommits(db, e);
    assert FirstBeyond([e], db.revision) == 1 by {
      assert FirstBeyond([e][1..], db.revision) == 0;
    }
    hide CommitGroup, Regroup;
    assert Replay(db, []).ok;
    assert [[e]][..0] == [];
    assert Replay(db, [[e]]) == CommitGroup(db, [e]);
    var delta := Delta(e.modRevision, e.modRevision + 1, [e]);
    assert [delta][..0] == [];
    assert Restore(db, []) == Restored(db);
  }

  lemma MislabelledStates(h: History, e: Event, f: Event)
    requires h == [[e], [f]] && e.kind.Put? && f.kind.Put? && e.key == "a" && f.key == "b"
    ensures "b" !in KvAt(h, 2) && "b" in KvAt(h, 3)
  {
    assert OpsOf([e])[..0] == [] && OpsOf([f])[..0] == [];
    assert KvAt(h, 1) == map[];
    assert KvAt(h, 2) == ApplyOp(ApplyOps(map[], []), OpOf(e));
    assert KvAt(h, 3) == ApplyOp(ApplyOps(KvAt(h, 2), []), OpOf(f));
  }

  lemma PutCommits(db: Db, e: Event)
    requires e.kind.Put?
    ensures CommitGroup(db, [e]) == Replayed(Db(db.kv[e.key := e.value], db.revision + 1), true)
  {
    assert OpsOf([e])[0].OpPut? && OpsOf([e])[..0] == [];
    assert ApplyOps(db.kv, []) == db.kv;
  }

  // ---------------------------------------------------------------------------
  // Soundness: success means the original state
  // ---------------------------------------------------------------------------

  /** The delta holds whole revisions of `h`, though perhaps not all of its range. */
  ghost predicate WholeRevisions(h: History, events: seq<Event>) {
    events != [] ==> forall g :: g in Regroup(events) ==> g == EventsAt(h, LastEventRevision(g))
  }

  /** Where the revision increases the grouping falls apart into two. */
  lemma {:induction false} RegroupSplits(a: seq<Event>, b: seq<Event>)
    requires a != [] && b != []
    requires 0 != LastEventRevision(a) < b[0].modRevision
    ensures Regroup(a + b) == Regroup(a) + Regroup(b)
  {
    hide Regroup;
    var last := |b| - 1;
    var init, e := b[..last], b[last];
    assert b == init + [e];
    assert a + b == (a + init) + [e];
    RegroupSnoc(a + init, e);
    if last == 0 {
      RegroupSingle(e);
      assert a + init == a;
    } else {
      RegroupSplits(a, init);
      RegroupSnoc(init, e);
    }
  }

  lemma SuffixIsWhole(h: History, events: seq<Event>, b: int)
    requires events != [] && SortedByRevision(events) && WholeRevisions(h, events)
    requires b < LastEventRevision(events)
    ensures WholeRevisions(h, BeyondBase(events, b))
    ensures BeyondBase(events, b) != [] && SortedByRevision(BeyondBase(events, b))
    ensures LastEventRevision(BeyondBase(events, b)) == LastEventRevision(events)
  {
    var index := FirstBeyond(events, b);
    SuffixFrom(events, b);
    hide FirstBeyond, Regroup, SortedByRevision;
    if 0 < index {
      assert events == events[..index] + events[index..];
      RegroupSplits(events[..index], events[index..]);
    } else {
      assert events[0..] == events;
    }
  }

  lemma SuffixFrom(events: seq<Event>, b: int)
    requires events != [] && SortedByRevision(events) && b < LastEventRevision(events)
    ensures var index := FirstBeyond(events, b);
            && index < |events| && BeyondBase(events, b) == events[index..] && SortedByRevision(events[index..])
            && LastEventRevision(events[index..]) == LastEventRevision(events)
            && (0 < index ==> 0 != LastEventRevision(events[..index]) < events[index].modRevision)
  {
    var index := FirstBeyond(events, b);
    assert index < |events|;
    assert 0 < index ==> events[index - 1].modRevision <= b < events[index].modRevision;
    SuffixSorted(events, index);
    hide FirstBeyond, SortedByRevision;
  }

  lemma SuffixSorted(events: seq<Event>, index: nat)
    requires SortedByRevision(events) && index < |events|
    ensures SortedByRevision(events[index..]) && LastEventRevision(events[index..]) == LastEventRevision(events)
    ensures 0 < index ==> LastEventRevision(events[..index]) == events[index - 1].modRevision >= 1
  {
  }

  lemma CommitGroupRevision(h: History, r: int)
    requires ValidHistory(h) && 2 <= r <= LastRevisionOf(h)
    ensures CommitGroup(StateAt(h, r - 1), EventsAt(h, r)) == Replayed(StateAt(h, r), true)
  {
    CommitRevision(h, r);
  }

  /** Groups that are consecutive revisions of `h` replay to the last of them. */
  lemma {:induction false} ReplayHistory(h: History, b: int, groups: seq<seq<Event>>)
    requires ValidHistory(h)
    requires 1 <= b && b + |groups| <= LastRevisionOf(h)
    requires forall i :: 0 <= i < |groups| ==> groups[i] == EventsAt(h, b + 1 + i)
    ensures Replay(StateAt(h, b), groups) == Replayed(StateAt(h, b + |groups|), true)
  {
    hide CommitGroup, StateAt;
    if groups != [] {
      var last := |groups| - 1;
      ReplayHistory(h, b, groups[..last]);
      CommitGroupRevision(h, b + |groups|);
    }
  }

  /** Whole revisions of `h` that fill an interval above `b` replay to its end. */
  lemma ReplayWhole(h: History, b: int, events: seq<Event>)
    requires ValidHistory(h) && 1 <= b
    requires events != [] && SortedByRevision(events) && WholeRevisions(h, events)
    requires b <= LastEventRevision(events) <= LastRevisionOf(h)
    requires Revisions(events) == Interval(b + 1, LastEventRevision(events))
    ensures Replay(StateAt(h, b), Regroup(events)) == Replayed(StateAt(h, LastEventRevision(events)), true)
  {
    hide Regroup, Replay, ValidHistory, StateAt, EventsAt, LastEventRevision, SortedByRevision;
    var groups := Regroup(events);
    assert |Revisions(events)| == |groups|;
    forall i | 0 <= i < |groups| ensures groups[i] == EventsAt(h, b + 1 + i) {
      assert Revisions(events)[i] == LastEventRevision(groups[i]);
      assert groups[i] in groups;
    }
    ReplayHistory(h, b, groups);
  }

  lemma FirstDeltaSound(h: History, b: int, d: Delta)
    requires ValidHistory(h) && 1 <= b
    requires WellLabelled(d) && WholeRevisions(h, d.events) && d.lastRevision <= LastRevisionOf(h)
    requires ApplyAndVerify(StateAt(h, b), d, true).ok
    ensures ApplyAndVerify(StateAt(h, b), d, true).db == StateAt(h, d.lastRevision)
  {
    hide Replay, KvAt, Regroup, Revisions, SortedByRevision, WholeRevisions;
    FirstDeltaFills(StateAt(h, b), d);
    if b != d.lastRevision {
      SuffixIsWhole(h, d.events, b);
      ReplayWhole(h, b, BeyondBase(d.events, b));
    }
  }

  lemma NextDeltaSound(h: History, p: int, d: Delta)
    requires ValidHistory(h) && 1 <= p
    requires WellLabelled(d) && WholeRevisions(h, d.events) && d.lastRevision <= LastRevisionOf(h)
    requires forall e :: e in d.events ==> e.modRevision > p
    requires ApplyAndVerify(StateAt(h, p), d, false).ok
    ensures ApplyAndVerify(StateAt(h, p), d, false).db == StateAt(h, d.lastRevision)
  {
    hide Replay, KvAt, Regroup, Revisions, SortedByRevision, WholeRevisions;
    ReplayFills(StateAt(h, p), d.events);
    ReplayWhole(h, p, d.events);
  }

  /** Soundness: whatever deltas of whole revisions are presented, even with some missing, a
      restore that reports success has rebuilt the etcd of the last delta's revision. */
  lemma {:induction false} SuccessIsTheOriginal(h: History, b: int, deltas: seq<Delta>)
    requires ValidHistory(h) && 1 <= b
    requires IncreasingRanges(deltas)
    requires forall i :: 0 <= i < |deltas| ==> WholeRevisions(h, deltas[i].events)
    requires forall i :: 0 <= i < |deltas| ==> deltas[i].lastRevision <= LastRevisionOf(h)
    requires Restore(StateAt(h, b), deltas).Restored?
    ensures Restore(StateAt(h, b), deltas).db
         == StateAt(h, if deltas == [] then b else deltas[|deltas| - 1].lastRevision)
  {
    hide ApplyAndVerify, KvAt, WholeRevisions, SortedByRevision;
    if deltas != [] {
      var last := |deltas| - 1;
      SuccessIsTheOriginal(h, b, deltas[..last]);
      if last == 0 {
        FirstDeltaSound(h, b, deltas[0]);
      } else {
        GapDetection(StateAt(h, b), deltas[..last]);
        AboveLast(deltas, last);
        NextDeltaSound(h, deltas[last - 1].lastRevision, deltas[last]);
      }
    }
  }

  lemma AboveLast(deltas: seq<Delta>, k: nat)
    requires IncreasingRanges(deltas) && 0 < k < |deltas|
    ensures forall e :: e in deltas[k].events ==> e.modRevision > deltas[k - 1].lastRevision
  {
    var events := deltas[k].events;
    forall e | e in events ensures e.modRevision > deltas[k - 1].lastRevision {
      var i :| 0 <= i < |events| && events[i] == e;
      assert events[0].modRevision <= events[i].modRevision;
    }
  }

  // ---------------------------------------------------------------------------
  // Completeness: an unbroken chain restores
  // ---------------------------------------------------------------------------

  /** The delta holds exactly the revisions in its name. */
  ghost predicate ExactSlice(h: History, d: Delta) {
    && 1 <= d.startRevision <= d.lastRevision
    && 2 <= d.lastRevision <= LastRevisionOf(h)
    && d.events == Between(h, d.startRevision, d.lastRevision)
  }

  /** Deltas that continue each other and start no later than right after revision `b`. */
  ghost predicate Chain(h: History, b: int, deltas: seq<Delta>) {
    && (forall i :: 0 <= i < |deltas| ==> ExactSlice(h, deltas[i]))
    && (forall i, j :: 0 <= i < j < |deltas| && j == i + 1 ==>
                         deltas[j].startRevision == deltas[i].lastRevision + 1)
    && (deltas != [] ==> deltas[0].startRevision <= b + 1)
  }

  function ChainEnd(b: int, deltas: seq<Delta>): int {
    if deltas == [] then b else deltas[|deltas| - 1].lastRevision
  }

  function RevisionGroups(h: History, lo: int, hi: int): (groups: seq<seq<Event>>)
    requires lo <= hi + 1
    ensures |groups| == hi - lo + 1
    ensures forall i :: 0 <= i < |groups| ==> groups[i] == EventsAt(h, lo + i)
    decreases hi - lo + 1
  {
    if hi < lo then [] else RevisionGroups(h, lo, hi - 1) + [EventsAt(h, hi)]
  }

  lemma BetweenEndsAt(h: History, lo: int, hi: int)
    requires ValidHistory(h) && lo <= hi && 2 <= hi <= LastRevisionOf(h)
    ensures Between(h, lo, hi) != [] && LastEventRevision(Between(h, lo, hi)) == hi
  {
    BetweenEnds(h, lo, hi);
  }

  /** Grouping a stretch of history gives back its revisions. */
  lemma {:induction false} RegroupBetween(h: History, lo: int, hi: int)
    requires ValidHistory(h) && 2 <= lo <= hi <= LastRevisionOf(h)
    ensures Regroup(Between(h, lo, hi)) == RevisionGroups(h, lo, hi)
    decreases hi - lo
  {
    hide Regroup, ValidHistory, EventsAt, LastEventRevision;
    var init, events := Between(h, lo, hi - 1), EventsAt(h, hi);
    assert Between(h, lo, hi) == init + events;
    RevisionEvents(h, hi);
    OneGroup(events);
    if lo < hi {
      RegroupBetween(h, lo, hi - 1);
      BetweenEndsAt(h, lo, hi - 1);
      RegroupSplits(init, events);
    } else {
      assert init + events == events;
      assert RevisionGroups(h, lo, hi) == [events];
    }
  }

  lemma {:induction false} OneGroup(events: seq<Event>)
    requires events != []
    requires forall i :: 0 <= i < |events| ==> events[i].modRevision == events[0].modRevision
    ensures Regroup(events) == [events]
  {
    hide Regroup;
    var last := |events| - 1;
    var init := events[..last];
    assert events == init + [events[last]];
    if last == 0 {
      RegroupSingle(events[0]);
    } else {
      OneGroup(init);
      RegroupSnoc(init, events[last]);
    }
  }

  lemma ReplayBetween(h: History, b: int, hi: int)
    requires ValidHistory(h) && 1 <= b < hi <= LastRevisionOf(h)
    ensures Replay(StateAt(h, b), Regroup(Between(h, b + 1, hi))) == Replayed(StateAt(h, hi), true)
  {
    hide Regroup, Replay, KvAt;
    RegroupBetween(h, b + 1, hi);
    ReplayHistory(h, b, RevisionGroups(h, b + 1, hi));
  }

  lemma BeyondBaseBetween(h: History, lo: int, b: int, hi: int)
    requires ValidHistory(h) && lo <= b + 1 && 1 <= b < hi <= LastRevisionOf(h)
    ensures BeyondBase(Between(h, lo, hi), b) == Between(h, b + 1, hi)
  {
    hide Between, ValidHistory;
    var below, above := Between(h, lo, b), Between(h, b + 1, hi);
    BetweenConcat(h, lo, b, hi);
    BetweenRevisions(h, lo, b);
    BetweenRevisions(h, b + 1, hi);
    BetweenEnds(h, b + 1, hi);
    assert above[0] in above;
    SkipBelow(below, above, b);
  }

  /** Events that the base holds are skipped up to the first one it does not hold. */
  lemma SkipBelow(below: seq<Event>, above: seq<Event>, revision: int)
    requires forall e :: e in below ==> e.modRevision <= revision
    requires above != [] && above[0].modRevision > revision
    ensures BeyondBase(below + above, revision) == above
  {
    hide FirstBeyond;
    FirstBeyondBelow(below, above, revision);
    assert (below + above)[|below|..] == above;
  }

  lemma {:induction false} FirstBeyondBelow(below: seq<Event>, above: seq<Event>, revision: int)
    requires forall e :: e in below ==> e.modRevision <= revision
    requires above != [] && above[0].modRevision > revision
    ensures FirstBeyond(below + above, revision) == |below|
  {
    var events := below + above;
    if below == [] {
      assert events == above;
    } else {
      assert events[0] == below[0] && below[0] in below;
      assert events[1..] == below[1..] + above;
      FirstBeyondBelow(below[1..], above, revision);
    }
  }

  /** The first delta over a base at revision `b`: it succeeds exactly when it reaches `b`. */
  lemma FirstOfChain(h: History, b: int, d: Delta)
    requires ValidHistory(h) && 1 <= b <= LastRevisionOf(h)
    requires ExactSlice(h, d) && d.startRevision <= b + 1
    ensures ApplyAndVerify(StateAt(h, b), d, true).ok <==> b <= d.lastRevision
    ensures b <= d.lastRevision ==> ApplyAndVerify(StateAt(h, b), d, true).db == StateAt(h, d.lastRevision)
  {
    hide Regroup, Replay, KvAt, Between;
    if b < d.lastRevision {
      BeyondBaseBetween(h, d.startRevision, b, d.lastRevision);
      ReplayBetween(h, b, d.lastRevision);
    } else if b > d.lastRevision {
      ReplayAdvances(StateAt(h, b), Regroup(BeyondBase(d.events, b)));
    }
  }

  /** A chain over a base at revision `b` restores exactly when its first delta reaches `b`,
      and then gives the original etcd at the end of the chain. */
  lemma {:induction false} ChainRestores(h: History, b: int, deltas: seq<Delta>)
    requires ValidHistory(h) && 1 <= b <= LastRevisionOf(h)
    requires Chain(h, b, deltas)
    ensures Restore(StateAt(h, b), deltas).Restored? <==> deltas == [] || b <= deltas[0].lastRevision
    ensures Restore(StateAt(h, b), deltas).Restored? ==>
              Restore(StateAt(h, b), deltas).db == StateAt(h, ChainEnd(b, deltas))
  {
    hide ApplyAndVerify, KvAt, Between;
    if deltas != [] {
      var last := |deltas| - 1;
      var d := deltas[last];
      ChainRestores(h, b, deltas[..last]);
      if last == 0 {
        FirstOfChain(h, b, d);
      } else {
        NextOfChain(h, deltas[last - 1].lastRevision, d);
      }
    }
  }

  lemma NextOfChain(h: History, p: int, d: Delta)
    requires ValidHistory(h) && 1 <= p
    requires ExactSlice(h, d) && d.startRevision == p + 1
    ensures ApplyAndVerify(StateAt(h, p), d, false) == Replayed(StateAt(h, d.lastRevision), true)
  {
    hide Regroup, Replay, KvAt;
    ReplayBetween(h, p, d.lastRevision);
  }
}

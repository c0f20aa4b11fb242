/** Replaying delta snapshots over a base snapshot (pkg/snapshot/restorer/restorer.go). */
module Restorer {
  import opened Etcd

  /** A fetched delta snapshot: the revisions in its name and its events. */
  datatype Delta = Delta(startRevision: int, lastRevision: int, events: seq<Event>)

  /** The database after a replay; a failed replay leaves it half done. */
  datatype Replayed = Replayed(db: Db, ok: bool)

  /** The restored database, or the delta whose replay or revision check failed. */
  datatype RestoreResult = Restored(db: Db) | FailedAt(index: nat, db: Db)

  // ---------------------------------------------------------------------------
  // Specification
  // ---------------------------------------------------------------------------

  function LastEventRevision(events: seq<Event>): int {
    if events == [] then 0 else events[|events| - 1].modRevision
  }

  /** Events cut into transactions: a new one starts where the revision increases. */
  function Regroup(events: seq<Event>): (groups: seq<seq<Event>>)
    ensures |groups| > 0
  {
    if events == [] then [[]]
    else
      var last := |events| - 1;
      var groups := Regroup(events[..last]);
      var before := LastEventRevision(events[..last]);
      if before != 0 && events[last].modRevision > before then
        groups + [[events[last]]]
      else
        groups[..|groups| - 1] + [groups[|groups| - 1] + [events[last]]]
  }

  function CommitGroup(db: Db, group: seq<Event>): Replayed {
    if !Known(group) then Replayed(db, false)
    else match Commit(db, OpsOf(group))
      case Rejected => Replayed(db, false)
      case Committed(after) => Replayed(after, true)
  }

  /** Commits the groups in order and stops at the first failure. */
  function Replay(db: Db, groups: seq<seq<Event>>): Replayed {
    if groups == [] then Replayed(db, true)
    else
      var before := Replay(db, groups[..|groups| - 1]);
      if !before.ok then before else CommitGroup(before.db, groups[|groups| - 1])
  }

  /** Index of the first event newer than `revision`, or the length if there is none. */
  function FirstBeyond(events: seq<Event>, revision: int): (index: nat)
    ensures index <= |events|
    ensures forall i :: 0 <= i < index ==> events[i].modRevision <= revision
    ensures index < |events| ==> events[index].modRevision > revision
  {
    if events == [] || events[0].modRevision > revision then 0
    else 1 + FirstBeyond(events[1..], revision)
  }

  /** The events of the first delta that go on top of a base at `revision`. When no event
      is newer than the base the source starts from the first one. */
  function BeyondBase(events: seq<Event>, revision: int): seq<Event> {
    var index := FirstBeyond(events, revision);
    if index == |events| then events else events[index..]
  }

  function ApplyFirst(base: Db, delta: Delta): Replayed {
    if base.revision == delta.lastRevision then Replayed(base, true)
    else Replay(base, Regroup(BeyondBase(delta.events, base.revision)))
  }

  /** What of the first delta is replayed on a base: nothing if it ends where the base is, the events
      from the first one that is newer than the base, or all of them if none is, even if the base is
      beyond the delta. */
  lemma FirstReplays(base: Db, delta: Delta, i: nat)
    requires i <= |delta.events| && forall p :: 0 <= p < i ==> delta.events[p].modRevision <= base.revision
    ensures base.revision == delta.lastRevision ==> ApplyFirst(base, delta) == Replayed(base, true)
    ensures base.revision != delta.lastRevision && i == |delta.events| ==>
              ApplyFirst(base, delta) == Replay(base, Regroup(delta.events))
    ensures base.revision != delta.lastRevision && i < |delta.events| && delta.events[i].modRevision > base.revision ==>
              ApplyFirst(base, delta) == Replay(base, Regroup(delta.events[i..]))
  {
    hide Regroup, Replay;
    var k := FirstBeyond(delta.events, base.revision);
    assert i <= k;
    assert i < k ==> delta.events[i].modRevision <= base.revision;
  }

  /** One delta applied and checked; only the first may overlap with the base. */
  function ApplyAndVerify(db: Db, delta: Delta, first: bool): Replayed {
    var r := if first then ApplyFirst(db, delta) else Replay(db, Regroup(delta.events));
    Replayed(r.db, r.ok && r.db.revision == delta.lastRevision)
  }

  function Restore(base: Db, deltas: seq<Delta>): RestoreResult {
    if deltas == [] then Restored(base)
    else
      var last := |deltas| - 1;
      var before := Restore(base, deltas[..last]);
      if before.FailedAt? then before
      else
        var r := ApplyAndVerify(before.db, deltas[last], last == 0);
        if r.ok then Restored(r.db) else FailedAt(last, r.db)
  }

  // ---------------------------------------------------------------------------
  // Implementation
  // ---------------------------------------------------------------------------

  class EmbeddedEtcd {
    var kv: map<string, string>
    var revision: int

    constructor (db: Db)
      ensures State() == db
    {
      kv, revision := db.kv, db.revision;
    }

    function State(): Db
      reads this
    {
      Db(kv, revision)
    }

    method Txn(ops: seq<Op>) returns (ok: bool)
      modifies this
      ensures ok <==> Commit(old(State()), ops).Committed?
      ensures State() == if ok then Commit(old(State()), ops).db else old(State())
    {
      match Commit(State(), ops)
      case Rejected =>
        ok := false;
      case Committed(db) =>
        kv, revision := db.kv, db.revision;
        ok := true;
    }
  }

  predicate Cuts(done: seq<Event>, e: Event) {
    LastEventRevision(done) != 0 && e.modRevision > LastEventRevision(done)
  }

  lemma RegroupSnoc(init: seq<Event>, e: Event)
    ensures var groups := Regroup(init);
            var k := |groups| - 1;
            Regroup(init + [e]) == if Cuts(init, e) then groups + [[e]]
                                   else groups[..k] + [groups[k] + [e]]
  {
    assert (init + [e])[..|init|] == init;
  }

  /** Grouping a prefix of the events gives a prefix of the grouping, but for the last group,
      which may still grow. */
  lemma {:induction false} RegroupPrefix(events: seq<Event>, i: nat)
    requires i <= |events|
    ensures var part, whole := Regroup(events[..i]), Regroup(events);
            && |part| <= |whole|
            && part[..|part| - 1] == whole[..|part| - 1]
            && part[|part| - 1] <= whole[|part| - 1]
  {
    hide Regroup;
    if i < |events| {
      var init := events[..|events| - 1];
      assert init[..i] == events[..i] && events == init + [events[|events| - 1]];
      RegroupPrefix(init, i);
      RegroupSnoc(init, events[|events| - 1]);
    } else {
      assert events[..i] == events;
    }
  }

  lemma {:induction false} ReplayPrefix(db: Db, groups: seq<seq<Event>>, k: nat)
    requires k <= |groups|
    ensures !Replay(db, groups[..k]).ok ==> Replay(db, groups) == Replay(db, groups[..k])
    ensures Replay(db, groups).ok ==> Replay(db, groups[..k]).ok
  {
    if k < |groups| {
      var last := |groups| - 1;
      assert groups[..last][..k] == groups[..k];
      ReplayPrefix(db, groups[..last], k);
    } else {
      assert groups[..k] == groups;
    }
  }

  /** A replay whose closed groups fail, or whose open group holds an unknown event, fails there. */
  lemma ReplayStops(db: Db, events: seq<Event>, i: nat)
    requires i <= |events|
    ensures var part := Regroup(events[..i]);
            var closed := Replay(db, part[..|part| - 1]);
            !closed.ok || !Known(part[|part| - 1]) ==> Replay(db, Regroup(events)) == Replayed(closed.db, false)
  {
    hide Regroup, Commit;
    RegroupPrefix(events, i);
    var part, whole := Regroup(events[..i]), Regroup(events);
    var k := |part| - 1;
    ReplayPrefix(db, whole, k);
    if Replay(db, part[..k]).ok && !Known(part[k]) {
      var bad :| 0 <= bad < |part[k]| && part[k][bad].kind.OtherKind?;
      assert whole[k][bad].kind.OtherKind?;
      assert whole[..k + 1][..k] == whole[..k];
      ReplayPrefix(db, whole, k + 1);
    }
  }

  /** After the events `done`: the closed groups are committed, `ops` holds the open one. */
  ghost predicate Pending(db0: Db, done: seq<Event>, db: Db, ops: seq<Op>) {
    var groups := Regroup(done);
    && Known(groups[|groups| - 1])
    && ops == OpsOf(groups[|groups| - 1])
    && Replay(db0, groups[..|groups| - 1]) == Replayed(db, true)
  }

  lemma PendingStarts(db: Db)
    ensures Pending(db, [], db, [])
  {
  }

  lemma PendingEnds(db0: Db, events: seq<Event>, db: Db, ops: seq<Op>)
    requires Pending(db0, events, db, ops)
    ensures Replay(db0, Regroup(events)) == match Commit(db, ops)
                                            case Rejected => Replayed(db, false)
                                            case Committed(after) => Replayed(after, true)
  {
  }

  /** The next event joins the open group. */
  lemma JoinGroup(db0: Db, events: seq<Event>, i: nat, db: Db, ops: seq<Op>)
    requires i < |events|
    requires Pending(db0, events[..i], db, ops)
    requires !Cuts(events[..i], events[i])
    ensures if events[i].kind.OtherKind? then Replay(db0, Regroup(events)) == Replayed(db, false)
            else Pending(db0, events[..i + 1], db, ops + [OpOf(events[i])])
  {
    hide Regroup, Commit;
    var e := events[i];
    assert events[..i + 1] == events[..i] + [e];
    RegroupSnoc(events[..i], e);
    var groups, next := Regroup(events[..i]), Regroup(events[..i + 1]);
    assert next[..|next| - 1] == groups[..|groups| - 1];
    var open := groups[|groups| - 1];
    assert next[|next| - 1] == open + [e];
    if e.kind.OtherKind? {
      assert (open + [e])[|open|] == e;
      ReplayStops(db0, events, i + 1);
    } else {
      assert OpsOf(open + [e]) == OpsOf(open) + [OpOf(e)];
    }
  }

  /** The next event closes the open group, which is committed, and starts another. */
  lemma StartGroup(db0: Db, events: seq<Event>, i: nat, db: Db, ops: seq<Op>)
    requires i < |events|
    requires Pending(db0, events[..i], db, ops)
    requires Cuts(events[..i], events[i])
    ensures match Commit(db, ops)
            case Rejected => Replay(db0, Regroup(events)) == Replayed(db, false)
            case Committed(after) =>
              if events[i].kind.OtherKind? then Replay(db0, Regroup(events)) == Replayed(after, false)
              else Pending(db0, events[..i + 1], after, [OpOf(events[i])])
  {
    hide Regroup, Commit;
    assert events[..i + 1] == events[..i] + [events[i]];
    RegroupSnoc(events[..i], events[i]);
    var groups, next := Regroup(events[..i]), Regroup(events[..i + 1]);
    assert next[..|next| - 1] == groups;
    assert next[|next| - 1] == [events[i]];
    assert OpsOf([events[i]]) == [OpOf(events[i])];
    ReplayStops(db0, events, i + 1);
  }

  method ApplyEventsToEtcd(etcd: EmbeddedEtcd, events: seq<Event>) returns (ok: bool)
    modifies etcd
    ensures Replayed(etcd.State(), ok) == Replay(old(etcd.State()), Regroup(events))
  {
    var lastRev, ops := 0, [];
    ghost var db0 := etcd.State();
    PendingStarts(db0);
    for i := 0 to |events|
      invariant lastRev == LastEventRevision(events[..i])
      invariant Pending(db0, events[..i], etcd.State(), ops)
    {
      ghost var db, pending := etcd.State(), ops;
      var nextRev := events[i].modRevision;
      if lastRev != 0 && nextRev > lastRev {
        StartGroup(db0, events, i, db, pending);
        var committed := etcd.Txn(ops);
        if !committed {
          return false;
        }
        ops := [];
      } else {
        JoinGroup(db0, events, i, db, pending);
      }
      lastRev := nextRev;
      match events[i].kind {
        case Put => ops := ops + [OpPut(events[i].key, events[i].value)];
        case Delete => ops := ops + [OpDelete(events[i].key)];
        case OtherKind => return false;
      }
    }
    assert events[..|events|] == events;
    PendingEnds(db0, events, etcd.State(), ops);
    ok := etcd.Txn(ops);
  }

  /** Applies the first delta, without the revisions the base already holds. */
  method ApplyFirstDeltaSnapshot(etcd: EmbeddedEtcd, delta: Delta) returns (ok: bool)
    modifies etcd
    ensures Replayed(etcd.State(), ok) == ApplyFirst(old(etcd.State()), delta)
  {
    var lastRevision := etcd.revision;
    if lastRevision == delta.lastRevision {
      return true;
    }
    var newRevisionIndex := 0;
    for index := 0 to |delta.events|
      invariant newRevisionIndex == 0
      invariant forall i :: 0 <= i < index ==> delta.events[i].modRevision <= lastRevision
    {
      if delta.events[index].modRevision > lastRevision {
        newRevisionIndex := index;
        break;
      }
    }
    assert delta.events[newRevisionIndex..] == BeyondBase(delta.events, lastRevision) by {
      if newRevisionIndex > 0 {
        assert FirstBeyond(delta.events, lastRevision) == newRevisionIndex;
      }
    }
    ok := ApplyEventsToEtcd(etcd, delta.events[newRevisionIndex..]);
  }

  /** The whole restore, with the deltas applied in list order. */
  method RestoreDeltas(base: Db, deltas: seq<Delta>) returns (result: RestoreResult)
    ensures result == Restore(base, deltas)
  {
    hide Regroup, Replay, ApplyFirst;
    var etcd := new EmbeddedEtcd(base);
    for i := 0 to |deltas|
      invariant fresh(etcd)
      invariant Restore(base, deltas[..i]) == Restored(etcd.State())
    {
      var ok;
      assert deltas[..i + 1][..i] == deltas[..i];
      if i == 0 {
        ok := ApplyFirstDeltaSnapshot(etcd, deltas[0]);
      } else {
        ok := ApplyEventsToEtcd(etcd, deltas[i].events);
      }
      if !ok || etcd.revision != deltas[i].lastRevision {
        RestoreStops(base, deltas, i + 1);
        return FailedAt(i, etcd.State());
      }
    }
    assert deltas[..|deltas|] == deltas;
    result := Restored(etcd.State());
  }

  lemma {:induction false} RestoreStops(base: Db, deltas: seq<Delta>, k: nat)
    requires k <= |deltas|
    ensures Restore(base, deltas[..k]).FailedAt? ==> Restore(base, deltas) == Restore(base, deltas[..k])
  {
    hide ApplyAndVerify;
    if k < |deltas| {
      var last := |deltas| - 1;
      assert deltas[..last][..k] == deltas[..k];
      RestoreStops(base, deltas[..last], k);
    } else {
      assert deltas[..k] == deltas;
    }
  }
}

/** The part of etcd that backup and restore depend on: a key space with a revision
    counter, transactions, and the history of a live cluster as watch events. */
module Etcd {

  /** `OtherKind` stands for any event type that is neither PUT nor DELETE. */
  datatype EventKind = Put | Delete | OtherKind
  datatype Event = Event(kind: EventKind, key: string, value: string, modRevision: int)

  datatype Op = OpPut(key: string, value: string) | OpDelete(key: string)
  datatype Db = Db(kv: map<string, string>, revision: int)
  datatype CommitResult = Committed(db: Db) | Rejected

  function OpOf(e: Event): Op {
    if e.kind.Put? then OpPut(e.key, e.value) else OpDelete(e.key)
  }

  function OpsOf(events: seq<Event>): (ops: seq<Op>)
    ensures |ops| == |events|
    ensures forall i :: 0 <= i < |ops| ==> ops[i] == OpOf(events[i])
  {
    seq(|events|, i requires 0 <= i < |events| => OpOf(events[i]))
  }

  predicate Known(events: seq<Event>) {
    forall i :: 0 <= i < |events| ==> !events[i].kind.OtherKind?
  }

  /** etcd refuses a transaction that puts a key it also puts or deletes elsewhere. */
  predicate Clash(ops: seq<Op>) {
    exists i, j :: 0 <= i < j < |ops| && ops[i].key == ops[j].key && (ops[i].OpPut? || ops[j].OpPut?)
  }

  /** Whether a transaction changes anything: a delete of an absent key does not. */
  predicate Writes(kv: map<string, string>, ops: seq<Op>) {
    exists i :: 0 <= i < |ops| && (ops[i].OpPut? || ops[i].key in kv)
  }

  function ApplyOp(kv: map<string, string>, op: Op): map<string, string> {
    match op
    case OpPut(k, v) => kv[k := v]
    case OpDelete(k) => kv - {k}
  }

  function ApplyOps(kv: map<string, string>, ops: seq<Op>): map<string, string> {
    if ops == [] then kv
    else ApplyOp(ApplyOps(kv, ops[..|ops| - 1]), ops[|ops| - 1])
  }

  /** A transaction takes one new revision, and only if it writes. */
  function Commit(db: Db, ops: seq<Op>): CommitResult {
    if Clash(ops) then Rejected
    else Committed(Db(ApplyOps(db.kv, ops), if Writes(db.kv, ops) then db.revision + 1 else db.revision))
  }

  /** `h[i]` holds the events of revision `i + 2`; an empty etcd is at revision 1. */
  type History = seq<seq<Event>>

  function LastRevisionOf(h: History): int {
    |h| + 1
  }

  function EventsAt(h: History, r: int): seq<Event> {
    if 2 <= r <= LastRevisionOf(h) then h[r - 2] else []
  }

  function KvAt(h: History, r: int): map<string, string>
    decreases r
  {
    if r < 2 then map[] else ApplyOps(KvAt(h, r - 1), OpsOf(EventsAt(h, r)))
  }

  /** The cluster as it was at revision `r`. */
  function StateAt(h: History, r: int): Db {
    Db(KvAt(h, r), r)
  }

  /** All events of the revisions `lo..hi`, in order. */
  function Between(h: History, lo: int, hi: int): seq<Event>
    decreases hi - lo
  {
    if hi < lo then [] else Between(h, lo, hi - 1) + EventsAt(h, hi)
  }

  /** One revision of a live etcd: at least one event, distinct keys, deletes of live keys only. */
  ghost predicate ValidTxn(kv: map<string, string>, events: seq<Event>, r: int) {
    && events != []
    && (forall i :: 0 <= i < |events| ==>
          && events[i].modRevision == r
          && !events[i].kind.OtherKind?
          && (events[i].kind.Delete? ==> events[i].key in kv))
    && (forall i, j :: 0 <= i < j < |events| ==> events[i].key != events[j].key)
  }

  ghost predicate ValidAt(h: History, r: int) {
    ValidTxn(KvAt(h, r - 1), EventsAt(h, r), r)
  }

  ghost predicate ValidHistory(h: History) {
    forall r :: 2 <= r <= LastRevisionOf(h) ==> ValidAt(h, r)
  }

  /** Replaying one revision on the state before it gives the state after it. */
  lemma CommitRevision(h: History, r: int)
    requires ValidHistory(h)
    requires 2 <= r <= LastRevisionOf(h)
    ensures Known(EventsAt(h, r))
    ensures Commit(StateAt(h, r - 1), OpsOf(EventsAt(h, r))) == Committed(StateAt(h, r))
  {
    var events, kv := EventsAt(h, r), KvAt(h, r - 1);
    assert ValidAt(h, r);
    var ops := OpsOf(events);
    assert ops[0] == OpOf(events[0]);
    assert Writes(kv, ops);
  }

  lemma RevisionEvents(h: History, r: int)
    requires ValidHistory(h) && 2 <= r <= LastRevisionOf(h)
    ensures EventsAt(h, r) != []
    ensures forall i :: 0 <= i < |EventsAt(h, r)| ==> EventsAt(h, r)[i].modRevision == r
  {
    assert ValidAt(h, r);
  }

  lemma {:induction false} BetweenConcat(h: History, lo: int, mid: int, hi: int)
    requires lo <= mid + 1 && mid <= hi
    ensures Between(h, lo, hi) == Between(h, lo, mid) + Between(h, mid + 1, hi)
    decreases hi - mid
  {
    if mid < hi {
      BetweenConcat(h, lo, mid, hi - 1);
      BetweenLast(h, lo, hi);
      BetweenLast(h, mid + 1, hi);
      hide Between, EventsAt;
    }
  }

  lemma BetweenLast(h: History, lo: int, hi: int)
    requires lo <= hi
    ensures Between(h, lo, hi) == Between(h, lo, hi - 1) + EventsAt(h, hi)
  {
  }

  /** Every event between two revisions carries a revision between them. */
  lemma {:induction false} BetweenRevisions(h: History, lo: int, hi: int)
    requires ValidHistory(h)
    ensures forall e :: e in Between(h, lo, hi) ==> lo <= e.modRevision <= hi && e.modRevision >= 2
    ensures forall i, j :: 0 <= i < j < |Between(h, lo, hi)| ==>
                             Between(h, lo, hi)[i].modRevision <= Between(h, lo, hi)[j].modRevision
    decreases hi - lo
  {
    if lo <= hi {
      BetweenRevisions(h, lo, hi - 1);
      if 2 <= hi <= LastRevisionOf(h) {
        assert ValidAt(h, hi);
      }
    }
  }

  /** The last event between two revisions is one of the upper revision. */
  lemma BetweenEnds(h: History, lo: int, hi: int)
    requires ValidHistory(h)
    requires lo <= hi && 2 <= hi <= LastRevisionOf(h)
    ensures Between(h, lo, hi) != []
    ensures Between(h, lo, hi)[|Between(h, lo, hi)| - 1].modRevision == hi
  {
    assert ValidAt(h, hi);
  }
}

/** What becomes of the buffer that a watch error leaves behind: collecting starts again on top
    of it (pkg/snapshot/snapshotter/snapshotter.go), so the revisions since the last snapshot are
    buffered twice. This module says exactly when the delta cut from it can still be restored. */
module StaleBuffer {
  import opened Etcd
  import opened Restorer
  import opened RestoreTheorems

  // ---------------------------------------------------------------------------
  // Operations key by key
  // ---------------------------------------------------------------------------

  predicate Touches(ops: seq<Op>, key: string) {
    exists i :: 0 <= i < |ops| && ops[i].key == key
  }

  predicate Puts(ops: seq<Op>, key: string) {
    exists i :: 0 <= i < |ops| && ops[i].key == key && ops[i].OpPut?
  }

  /** Two key maps agree on a key. */
  predicate Agree(a: map<string, string>, b: map<string, string>, key: string) {
    (key in a <==> key in b) && (key in a ==> a[key] == b[key])
  }

  lemma {:induction false} ApplyConcat(kv: map<string, string>, a: seq<Op>, b: seq<Op>)
    ensures ApplyOps(kv, a + b) == ApplyOps(ApplyOps(kv, a), b)
  {
    hide ApplyOp;
    if b == [] {
      assert a + b == a;
    } else {
      assert (a + b)[..|a + b| - 1] == a + b[..|b| - 1];
      ApplyConcat(kv, a, b[..|b| - 1]);
    }
  }

  lemma TouchesStep(ops: seq<Op>, key: string)
    requires ops != []
    ensures var init, last := ops[..|ops| - 1], ops[|ops| - 1];
            && (Touches(ops, key) <==> Touches(init, key) || last.key == key)
            && (Puts(ops, key) <==> Puts(init, key) || (last.key == key && last.OpPut?))
  {
    var init := ops[..|ops| - 1];
    assert forall i :: 0 <= i < |init| ==> init[i] == ops[i];
  }

  lemma {:induction false} Untouched(kv: map<string, string>, ops: seq<Op>, key: string)
    requires !Touches(ops, key)
    ensures Agree(ApplyOps(kv, ops), kv, key)
  {
    if ops != [] {
      TouchesStep(ops, key);
      Untouched(kv, ops[..|ops| - 1], key);
    }
  }

  /** What the operations leave of a key they touch does not depend on where they started. */
  lemma {:induction false} TouchedAlike(a: map<string, string>, b: map<string, string>, ops: seq<Op>, key: string)
    requires Touches(ops, key)
    ensures Agree(ApplyOps(a, ops), ApplyOps(b, ops), key)
  {
    var init, last := ops[..|ops| - 1], ops[|ops| - 1];
    TouchesStep(ops, key);
    if last.key != key { TouchedAlike(a, b, init, key); }
  }

  /** Operations without a put of a key do not bring it back. */
  lemma {:induction false} AbsentStays(kv: map<string, string>, ops: seq<Op>, key: string)
    requires key !in kv && !Puts(ops, key)
    ensures key !in ApplyOps(kv, ops)
  {
    if ops != [] {
      TouchesStep(ops, key);
      AbsentStays(kv, ops[..|ops| - 1], key);
    }
  }

  /** Operations that touch a key without putting it delete it. */
  lemma {:induction false} DeletedKey(kv: map<string, string>, ops: seq<Op>, key: string)
    requires Touches(ops, key) && !Puts(ops, key)
    ensures key !in ApplyOps(kv, ops)
  {
    var init, last := ops[..|ops| - 1], ops[|ops| - 1];
    TouchesStep(ops, key);
    if last.key != key { DeletedKey(kv, init, key); }
  }

  /** Doing the same operations again changes nothing. */
  lemma ApplyTwice(kv: map<string, string>, ops: seq<Op>)
    ensures ApplyOps(ApplyOps(kv, ops), ops) == ApplyOps(kv, ops)
  {
    hide ApplyOps;
    var once := ApplyOps(kv, ops);
    var twice := ApplyOps(once, ops);
    forall key ensures Agree(twice, once, key) {
      if Touches(ops, key) { TouchedAlike(once, kv, ops, key); } else { Untouched(once, ops, key); }
    }
    assert forall key :: key in twice <==> key in once by {
      forall key ensures key in twice <==> key in once { assert Agree(twice, once, key); }
    }
    assert forall key :: key in once ==> twice[key] == once[key] by {
      forall key | key in once ensures twice[key] == once[key] { assert Agree(twice, once, key); }
    }
  }

  // ---------------------------------------------------------------------------
  // Doing revisions again
  // ---------------------------------------------------------------------------

  lemma OpsConcat(a: seq<Event>, b: seq<Event>)
    ensures OpsOf(a + b) == OpsOf(a) + OpsOf(b)
  {
  }

  /** The key map of revision `k` after the revisions `lo..r` were done again on it. */
  function Redo(h: History, lo: int, k: int, r: int): map<string, string> {
    ApplyOps(KvAt(h, k), OpsOf(Between(h, lo, r)))
  }

  lemma RedoStep(h: History, lo: int, k: int, r: int)
    requires lo <= r
    ensures Redo(h, lo, k, r) == ApplyOps(Redo(h, lo, k, r - 1), OpsOf(EventsAt(h, r)))
  {
    hide ApplyOps, KvAt, EventsAt;
    OpsConcat(Between(h, lo, r - 1), EventsAt(h, r));
    ApplyConcat(KvAt(h, k), OpsOf(Between(h, lo, r - 1)), OpsOf(EventsAt(h, r)));
  }

  lemma {:induction false} KvBetween(h: History, a: int, r: int)
    requires 1 <= a <= r
    ensures KvAt(h, r) == ApplyOps(KvAt(h, a), OpsOf(Between(h, a + 1, r)))
    decreases r - a
  {
    hide ApplyOps, EventsAt;
    if a < r {
      KvBetween(h, a, r - 1);
      OpsConcat(Between(h, a + 1, r - 1), EventsAt(h, r));
      ApplyConcat(KvAt(h, a), OpsOf(Between(h, a + 1, r - 1)), OpsOf(EventsAt(h, r)));
    } else {
      assert OpsOf(Between(h, a + 1, r)) == [];
      NoOps(KvAt(h, a));
    }
  }

  lemma NoOps(kv: map<string, string>)
    ensures ApplyOps(kv, []) == kv
  {
  }

  /** Once all of them are done again, the key map is the original one, and stays so. */
  lemma {:induction false} RedoEnds(h: History, lo: int, k: int, r: int)
    requires 2 <= lo <= k <= r
    ensures Redo(h, lo, k, r) == KvAt(h, r)
    decreases r - k
  {
    hide ApplyOps, EventsAt, Between;
    if r == k {
      KvBetween(h, lo - 1, k);
      ApplyTwice(KvAt(h, lo - 1), OpsOf(Between(h, lo, k)));
    } else {
      RedoEnds(h, lo, k, r - 1);
      RedoStep(h, lo, k, r);
    }
  }

  /** How many of the revisions `lo+1..r` write when they are done again. */
  function Rewrites(h: History, lo: int, k: int, r: int): nat
    decreases r - lo
  {
    if r <= lo then 0
    else Rewrites(h, lo, k, r - 1) + if Writes(Redo(h, lo, k, r - 1), OpsOf(EventsAt(h, r))) then 1 else 0
  }

  lemma NoClashInRevision(h: History, r: int)
    requires ValidHistory(h) && 2 <= r <= LastRevisionOf(h)
    ensures Known(EventsAt(h, r)) && !Clash(OpsOf(EventsAt(h, r)))
  {
    assert ValidAt(h, r);
  }

  lemma {:induction false} ReplayRedo(h: History, lo: int, k: int, r: int)
    requires ValidHistory(h) && 2 <= lo <= r <= LastRevisionOf(h)
    ensures Replay(Db(Redo(h, lo, k, lo), k), RevisionGroups(h, lo + 1, r))
         == Replayed(Db(Redo(h, lo, k, r), k + Rewrites(h, lo, k, r)), true)
    decreases r - lo
  {
    hide Redo, ValidHistory, Writes, Clash, EventsAt, Known;
    var groups := RevisionGroups(h, lo + 1, r);
    if lo < r {
      ReplayRedo(h, lo, k, r - 1);
      assert groups[..|groups| - 1] == RevisionGroups(h, lo + 1, r - 1) && groups[|groups| - 1] == EventsAt(h, r);
      NoClashInRevision(h, r);
      RedoStep(h, lo, k, r);
    } else {
      assert groups == [];
    }
  }

  /** Every revision after `k` writes. */
  lemma {:induction false} RewritesBeyond(h: History, lo: int, k: int, r: int)
    requires ValidHistory(h) && 2 <= lo <= k <= r <= LastRevisionOf(h)
    ensures Rewrites(h, lo, k, r) == Rewrites(h, lo, k, k) + (r - k)
    decreases r - k
  {
    hide Redo, Writes, KvAt;
    if k < r {
      RewritesBeyond(h, lo, k, r - 1);
      RedoEnds(h, lo, k, r - 1);
      RevisionWrites(h, r);
    }
  }

  lemma RevisionWrites(h: History, r: int)
    requires ValidHistory(h) && 2 <= r <= LastRevisionOf(h)
    ensures Writes(KvAt(h, r - 1), OpsOf(EventsAt(h, r)))
  {
    assert ValidAt(h, r);
    var ops := OpsOf(EventsAt(h, r));
    assert ops[0] == OpOf(EventsAt(h, r)[0]);
  }

  lemma {:induction false} NoRewrites(h: History, lo: int, k: int, r: int)
    requires lo <= r
    ensures Rewrites(h, lo, k, r) == 0 <==>
            forall q :: lo < q <= r ==> !Writes(Redo(h, lo, k, q - 1), OpsOf(EventsAt(h, q)))
    decreases r - lo
  {
    hide Redo, Writes, EventsAt;
    if lo < r { NoRewrites(h, lo, k, r - 1); }
  }

  // ---------------------------------------------------------------------------
  // When doing them again goes unnoticed
  // ---------------------------------------------------------------------------

  ghost predicate NoPut(events: seq<Event>) {
    forall i :: 0 <= i < |events| ==> !events[i].kind.Put?
  }

  /** Revision `r` only deletes keys that revision `lo` did not put. */
  ghost predicate HarmlessAt(h: History, lo: int, r: int) {
    forall i :: 0 <= i < |EventsAt(h, r)| ==>
      EventsAt(h, r)[i].kind.Delete? && !Puts(OpsOf(EventsAt(h, lo)), EventsAt(h, r)[i].key)
  }

  /** The revisions `lo..k` may be buffered twice: a single one has no put, and of several all
      but the first only delete keys that the first did not put. */
  ghost predicate Harmless(h: History, lo: int, k: int) {
    (lo == k ==> NoPut(EventsAt(h, lo))) && forall r :: lo < r <= k ==> HarmlessAt(h, lo, r)
  }

  /** The transaction that the last stale revision and the first repeated one end up in. */
  function Merged(h: History, lo: int, k: int): seq<Event> {
    EventsAt(h, k) + EventsAt(h, lo)
  }

  lemma HarmlessMerges(h: History, lo: int, k: int)
    requires ValidHistory(h) && 2 <= lo <= k <= LastRevisionOf(h) && Harmless(h, lo, k)
    ensures !Clash(OpsOf(Merged(h, lo, k)))
  {
    assert ValidAt(h, k) && ValidAt(h, lo);
    var a, b := OpsOf(EventsAt(h, k)), OpsOf(EventsAt(h, lo));
    OpsConcat(EventsAt(h, k), EventsAt(h, lo));
    assert lo < k ==> HarmlessAt(h, lo, k);
    var ops: seq<Op> := a + b;
    forall i, j | 0 <= i < j < |ops| && ops[i].key == ops[j].key
      ensures !ops[i].OpPut? && !ops[j].OpPut?
    {
      assert i < |a| <= j;
      assert a[i] == OpOf(EventsAt(h, k)[i]) && b[j - |a|] == OpOf(EventsAt(h, lo)[j - |a|]);
    }
  }

  /** A single stale revision with a put clashes with itself. */
  lemma PutClashes(h: History, lo: int)
    requires !NoPut(EventsAt(h, lo))
    ensures Clash(OpsOf(Merged(h, lo, lo)))
  {
    var events := EventsAt(h, lo);
    var i :| 0 <= i < |events| && events[i].kind.Put?;
    var ops := OpsOf(Merged(h, lo, lo));
    assert ops[i].key == ops[|events| + i].key && ops[i].OpPut?;
  }

  /** None of the revisions `lo+1..r` puts a key that is put in none of them. */
  lemma {:induction false} NoPutsBetween(h: History, lo: int, a: int, r: int, key: string)
    requires forall q :: a <= q <= r ==> !Puts(OpsOf(EventsAt(h, q)), key)
    ensures !Puts(OpsOf(Between(h, a, r)), key)
    decreases r - a
  {
    hide EventsAt;
    if a <= r {
      NoPutsBetween(h, lo, a, r - 1, key);
      var x, y := OpsOf(Between(h, a, r - 1)), OpsOf(EventsAt(h, r));
      OpsConcat(Between(h, a, r - 1), EventsAt(h, r));
      PutsConcat(x, y, key);
    } else {
      assert Between(h, a, r) == [];
    }
  }

  lemma PutsConcat(a: seq<Op>, b: seq<Op>, key: string)
    ensures Puts(a + b, key) <==> Puts(a, key) || Puts(b, key)
    ensures Touches(a + b, key) <==> Touches(a, key) || Touches(b, key)
  {
    var c := a + b;
    assert forall i :: 0 <= i < |a| ==> c[i] == a[i];
    assert forall i :: 0 <= i < |b| ==> c[|a| + i] == b[i];
  }

  lemma HarmlessHasNoPut(h: History, lo: int, r: int, key: string)
    requires HarmlessAt(h, lo, r)
    ensures !Puts(OpsOf(EventsAt(h, r)), key)
  {
  }

  /** A key that revision `r` deletes is gone when it is done again. */
  lemma HarmlessKeyGone(h: History, lo: int, k: int, r: int, i: nat)
    requires ValidHistory(h) && 2 <= lo < r <= k <= LastRevisionOf(h) && Harmless(h, lo, k) && i < |EventsAt(h, r)|
    ensures EventsAt(h, r)[i].key !in Redo(h, lo, k, r - 1)
  {
    hide ValidHistory, EventsAt, ApplyOps, KvAt, Between, Puts;
    var key := EventsAt(h, r)[i].key;
    assert HarmlessAt(h, lo, r);
    forall q | lo < q <= k ensures !Puts(OpsOf(EventsAt(h, q)), key) {
      assert HarmlessAt(h, lo, q);
      HarmlessHasNoPut(h, lo, q, key);
    }
    NoPutsBetween(h, lo, r, k, key);
    TouchedBetween(h, r, k, r, i);
    KvBetween(h, r - 1, k);
    DeletedKey(KvAt(h, r - 1), OpsOf(Between(h, r, k)), key);
    NoPutsBetween(h, lo, lo, r - 1, key);
    AbsentStays(KvAt(h, k), OpsOf(Between(h, lo, r - 1)), key);
  }

  lemma {:induction false} TouchedBetween(h: History, a: int, b: int, r: int, i: nat)
    requires a <= r <= b && i < |EventsAt(h, r)|
    ensures Touches(OpsOf(Between(h, a, b)), EventsAt(h, r)[i].key)
    decreases b - r
  {
    hide EventsAt;
    var key := EventsAt(h, r)[i].key;
    var x, y := OpsOf(Between(h, a, b - 1)), OpsOf(EventsAt(h, b));
    OpsConcat(Between(h, a, b - 1), EventsAt(h, b));
    PutsConcat(x, y, key);
    if r < b {
      TouchedBetween(h, a, b - 1, r, i);
    } else {
      assert y[i].key == key;
    }
  }

  lemma HarmlessWritesNothing(h: History, lo: int, k: int, r: int)
    requires ValidHistory(h) && 2 <= lo < r <= k <= LastRevisionOf(h) && Harmless(h, lo, k)
    ensures !Writes(Redo(h, lo, k, r - 1), OpsOf(EventsAt(h, r)))
  {
    hide ValidHistory, Redo, EventsAt, Puts;
    assert HarmlessAt(h, lo, r);
    forall i | 0 <= i < |EventsAt(h, r)| ensures EventsAt(h, r)[i].key !in Redo(h, lo, k, r - 1) {
      HarmlessKeyGone(h, lo, k, r, i);
    }
  }

  /** A key put by revision `lo` is there until a later revision touches it. */
  lemma PutIsThere(h: History, lo: int, k: int, r: int, key: string)
    requires ValidHistory(h) && 2 <= lo <= r <= LastRevisionOf(h) && lo <= LastRevisionOf(h)
    requires Puts(OpsOf(EventsAt(h, lo)), key)
    requires !Touches(OpsOf(Between(h, lo + 1, r)), key)
    ensures key in Redo(h, lo, k, r)
  {
    hide ApplyOps, KvAt, EventsAt;
    var first := OpsOf(EventsAt(h, lo));
    BetweenConcat(h, lo, lo, r);
    BetweenOne(h, lo);
    OpsConcat(Between(h, lo, lo), Between(h, lo + 1, r));
    ApplyConcat(KvAt(h, k), first, OpsOf(Between(h, lo + 1, r)));
    PutPresent(h, lo, KvAt(h, k), key);
    Untouched(ApplyOps(KvAt(h, k), first), OpsOf(Between(h, lo + 1, r)), key);
  }

  lemma PutPresent(h: History, lo: int, kv: map<string, string>, key: string)
    requires ValidHistory(h) && 2 <= lo <= LastRevisionOf(h) && Puts(OpsOf(EventsAt(h, lo)), key)
    ensures key in ApplyOps(kv, OpsOf(EventsAt(h, lo)))
  {
    assert ValidAt(h, lo);
    OnlyPuts(kv, OpsOf(EventsAt(h, lo)), key);
  }

  lemma {:induction false} OnlyPuts(kv: map<string, string>, ops: seq<Op>, key: string)
    requires Puts(ops, key) && forall i :: 0 <= i < |ops| && ops[i].key == key ==> ops[i].OpPut?
    ensures key in ApplyOps(kv, ops)
  {
    TouchesStep(ops, key);
    if ops[|ops| - 1].key != key { OnlyPuts(kv, ops[..|ops| - 1], key); }
  }

  /** A harmful revision, or an earlier one, writes when it is done again. */
  lemma {:induction false} HarmfulWrites(h: History, lo: int, k: int, r: int) returns (q: int)
    requires ValidHistory(h) && 2 <= lo < r <= k <= LastRevisionOf(h) && !HarmlessAt(h, lo, r)
    ensures lo < q <= r && Writes(Redo(h, lo, k, q - 1), OpsOf(EventsAt(h, q)))
    decreases r
  {
    hide Redo, Puts, EventsAt;
    var events := EventsAt(h, r);
    var i :| 0 <= i < |events| && !(events[i].kind.Delete? && !Puts(OpsOf(EventsAt(h, lo)), events[i].key));
    var key := events[i].key;
    assert ValidAt(h, r);
    assert OpsOf(events)[i] == OpOf(events[i]);
    if events[i].kind.Put? {
      q := r;
    } else if Touches(OpsOf(Between(h, lo + 1, r - 1)), key) {
      var p, j := TouchingRevision(h, lo + 1, r - 1, key);
      assert !HarmlessAt(h, lo, p);
      q := HarmfulWrites(h, lo, k, p);
    } else {
      q := r;
      PutIsThere(h, lo, k, r - 1, key);
    }
  }

  lemma {:induction false} TouchingRevision(h: History, a: int, b: int, key: string) returns (r: int, i: nat)
    requires Touches(OpsOf(Between(h, a, b)), key)
    ensures a <= r <= b && i < |EventsAt(h, r)| && EventsAt(h, r)[i].key == key
    decreases b - a
  {
    hide EventsAt;
    assert a <= b by { assert b < a ==> OpsOf(Between(h, a, b)) == []; }
    var x, y := OpsOf(Between(h, a, b - 1)), OpsOf(EventsAt(h, b));
    OpsConcat(Between(h, a, b - 1), EventsAt(h, b));
    PutsConcat(x, y, key);
    if Touches(y, key) {
      r := b;
      i :| 0 <= i < |y| && y[i].key == key;
    } else {
      r, i := TouchingRevision(h, a, b - 1, key);
    }
  }

  /** The merged transaction is accepted and nothing is written twice, exactly for harmless
      revisions. */
  lemma HarmlessIsExact(h: History, lo: int, k: int)
    requires ValidHistory(h) && 2 <= lo <= k <= LastRevisionOf(h)
    ensures Harmless(h, lo, k) <==> !Clash(OpsOf(Merged(h, lo, k))) && Rewrites(h, lo, k, k) == 0
  {
    hide ValidHistory, Redo, Writes, EventsAt, HarmlessAt, Clash, Rewrites, Merged;
    NoRewrites(h, lo, k, k);
    if Harmless(h, lo, k) {
      HarmlessMerges(h, lo, k);
      forall r | lo < r <= k ensures !Writes(Redo(h, lo, k, r - 1), OpsOf(EventsAt(h, r))) {
        HarmlessWritesNothing(h, lo, k, r);
      }
    } else if lo == k {
      PutClashes(h, lo);
    } else {
      var r :| lo < r <= k && !HarmlessAt(h, lo, r);
      var q := HarmfulWrites(h, lo, k, r);
    }
  }

  // ---------------------------------------------------------------------------
  // Replaying a stale delta
  // ---------------------------------------------------------------------------

  /** What is buffered when collecting up to `n` starts on top of the revisions `lo..k`. */
  function StaleEvents(h: History, lo: int, k: int, n: int): seq<Event> {
    Between(h, lo, k) + Between(h, lo, n)
  }

  /** Revisions that do not increase stay in one transaction. */
  lemma {:induction false} NoIncrease(events: seq<Event>)
    requires events != []
    requires forall i, j :: 0 <= i < j < |events| ==> events[i].modRevision >= events[j].modRevision
    ensures Regroup(events) == [events]
  {
    hide Regroup;
    var init, e := events[..|events| - 1], events[|events| - 1];
    assert events == init + [e];
    if init == [] {
      RegroupSingle(e);
      assert events == [e];
    } else {
      NoIncrease(init);
      RegroupSnoc(init, e);
    }
  }

  lemma MergedGroup(h: History, lo: int, k: int)
    requires ValidHistory(h) && 2 <= lo <= k <= LastRevisionOf(h)
    ensures Merged(h, lo, k) != [] && Regroup(Merged(h, lo, k)) == [Merged(h, lo, k)]
    ensures Merged(h, lo, k)[0].modRevision == k && LastEventRevision(Merged(h, lo, k)) == lo
  {
    hide Regroup, ValidHistory, EventsAt;
    RevisionEvents(h, lo);
    RevisionEvents(h, k);
    NoIncrease(Merged(h, lo, k));
  }

  /** The transactions of a stale delta over a base at revision `b`. */
  function StaleGroups(h: History, lo: int, k: int, b: int, n: int): seq<seq<Event>>
    requires b < k && lo <= n
  {
    RevisionGroups(h, b + 1, k - 1) + [Merged(h, lo, k)] + RevisionGroups(h, lo + 1, n)
  }

  lemma RegroupStale(h: History, lo: int, k: int, b: int, n: int)
    requires ValidHistory(h) && 2 <= lo <= k <= LastRevisionOf(h) && lo <= n <= LastRevisionOf(h) && lo - 1 <= b < k
    ensures Regroup(Between(h, b + 1, k) + Between(h, lo, n)) == StaleGroups(h, lo, k, b, n)
  {
    hide Regroup, ValidHistory, EventsAt, LastEventRevision, Merged;
    var head, middle, rest := Between(h, b + 1, k - 1), Merged(h, lo, k), Between(h, lo + 1, n);
    assert Between(h, b + 1, k) + Between(h, lo, n) == head + (middle + rest) by { StaleParts(h, lo, k, b, n); }
    MergedGroup(h, lo, k);
    RegroupTail(h, lo, k, n);
    if b + 1 <= k - 1 {
      RegroupBetween(h, b + 1, k - 1);
      BetweenEndsAt(h, b + 1, k - 1);
      assert (middle + rest)[0] == middle[0];
      RegroupSplits(head, middle + rest);
    } else {
      assert head + (middle + rest) == middle + rest;
    }
  }

  lemma StaleParts(h: History, lo: int, k: int, b: int, n: int)
    requires lo <= n && b < k
    ensures Between(h, b + 1, k) + Between(h, lo, n)
         == Between(h, b + 1, k - 1) + (Merged(h, lo, k) + Between(h, lo + 1, n))
  {
    hide EventsAt, Between;
    BetweenConcat(h, lo, lo, n);
    BetweenOne(h, lo);
    BetweenLast(h, b + 1, k);
    Regrouped(Between(h, b + 1, k - 1), EventsAt(h, k), EventsAt(h, lo), Between(h, lo + 1, n));
  }

  lemma Regrouped(a: seq<Event>, b: seq<Event>, c: seq<Event>, d: seq<Event>)
    ensures (a + b) + (c + d) == a + ((b + c) + d)
  {
  }

  lemma BetweenStarts(h: History, lo: int, hi: int)
    requires ValidHistory(h) && lo <= hi && 2 <= hi <= LastRevisionOf(h)
    ensures Between(h, lo, hi) != [] && Between(h, lo, hi)[0].modRevision >= lo
  {
    BetweenRevisions(h, lo, hi);
    BetweenEnds(h, lo, hi);
    hide Between;
    assert Between(h, lo, hi)[0] in Between(h, lo, hi);
  }

  lemma NothingBetween(h: History, lo: int)
    ensures Between(h, lo + 1, lo) == [] && RevisionGroups(h, lo + 1, lo) == []
  {
  }

  lemma BetweenOne(h: History, r: int)
    ensures Between(h, r, r) == EventsAt(h, r)
  {
    assert Between(h, r, r - 1) == [];
  }

  lemma RegroupTail(h: History, lo: int, k: int, n: int)
    requires ValidHistory(h) && 2 <= lo <= k <= LastRevisionOf(h) && lo <= n <= LastRevisionOf(h)
    ensures Regroup(Merged(h, lo, k) + Between(h, lo + 1, n)) == [Merged(h, lo, k)] + RevisionGroups(h, lo + 1, n)
  {
    hide Regroup, EventsAt, LastEventRevision, Merged, Between, RevisionGroups, ValidHistory;
    var middle, rest := Merged(h, lo, k), Between(h, lo + 1, n);
    MergedGroup(h, lo, k);
    if lo < n {
      BetweenStarts(h, lo + 1, n);
      RegroupBetween(h, lo + 1, n);
      RegroupSplits(middle, rest);
    } else {
      NothingBetween(h, lo);
      assert middle + rest == middle;
    }
  }

  lemma {:induction false} ReplayConcat(db: Db, a: seq<seq<Event>>, b: seq<seq<Event>>)
    ensures Replay(db, a + b) == if Replay(db, a).ok then Replay(Replay(db, a).db, b) else Replay(db, a)
  {
    hide CommitGroup;
    if b == [] {
      assert a + b == a;
    } else {
      assert (a + b)[..|a + b| - 1] == a + b[..|b| - 1];
      ReplayConcat(db, a, b[..|b| - 1]);
    }
  }

  lemma ReplayOne(db: Db, group: seq<Event>)
    ensures Replay(db, [group]) == CommitGroup(db, group)
  {
    assert [group][..0] == [];
    assert Replay(db, []) == Replayed(db, true);
  }

  lemma CommitMerged(h: History, lo: int, k: int)
    requires ValidHistory(h) && 2 <= lo <= k <= LastRevisionOf(h)
    ensures CommitGroup(StateAt(h, k - 1), Merged(h, lo, k))
         == if Clash(OpsOf(Merged(h, lo, k))) then Replayed(StateAt(h, k - 1), false)
            else Replayed(Db(Redo(h, lo, k, lo), k), true)
  {
    hide ValidHistory, EventsAt, Clash, ApplyOps;
    var a, b := EventsAt(h, k), EventsAt(h, lo);
    NoClashInRevision(h, k);
    NoClashInRevision(h, lo);
    OpsConcat(a, b);
    ApplyConcat(KvAt(h, k - 1), OpsOf(a), OpsOf(b));
    RevisionWrites(h, k);
    WritesMore(KvAt(h, k - 1), OpsOf(a), OpsOf(b));
    BetweenOne(h, lo);
    assert KvAt(h, k) == ApplyOps(KvAt(h, k - 1), OpsOf(a));
  }

  lemma WritesMore(kv: map<string, string>, a: seq<Op>, b: seq<Op>)
    requires Writes(kv, a)
    ensures Writes(kv, a + b)
  {
    var i :| 0 <= i < |a| && (a[i].OpPut? || a[i].key in kv);
    assert (a + b)[i] == a[i];
  }

  /** Over a base at revision `b` the stale delta replays to its last revision exactly when that is
      not below the revisions buffered twice and these are harmless; then the result is the
      original etcd. */
  lemma ReplayStale(h: History, lo: int, k: int, b: int, n: int)
    requires ValidHistory(h) && 2 <= lo <= k <= LastRevisionOf(h) && lo <= n <= LastRevisionOf(h) && lo - 1 <= b < k
    ensures var r := Replay(StateAt(h, b), Regroup(Between(h, b + 1, k) + Between(h, lo, n)));
            if k <= n && Harmless(h, lo, k) then r == Replayed(StateAt(h, n), true) else !r.ok || r.db.revision > n
  {
    hide ValidHistory, Regroup, Replay, KvAt, EventsAt, Redo, Rewrites, Harmless, Merged, CommitGroup, Clash, Between;
    var head, rest := RevisionGroups(h, b + 1, k - 1), RevisionGroups(h, lo + 1, n);
    RegroupStale(h, lo, k, b, n);
    ReplayConcat(StateAt(h, b), head + [Merged(h, lo, k)], rest);
    ReplayConcat(StateAt(h, b), head, [Merged(h, lo, k)]);
    ReplayHistory(h, b, head);
    ReplayOne(StateAt(h, k - 1), Merged(h, lo, k));
    CommitMerged(h, lo, k);
    ReplayRedo(h, lo, k, n);
    if k <= n {
      RewritesBeyond(h, lo, k, n);
      RedoEnds(h, lo, k, n);
      HarmlessIsExact(h, lo, k);
    }
  }

  lemma FirstBeyondConcat(a: seq<Event>, b: seq<Event>, revision: int)
    requires FirstBeyond(a, revision) < |a|
    ensures BeyondBase(a + b, revision) == BeyondBase(a, revision) + b
  {
    FirstBeyondSame(a, b, revision);
    FirstBeyondIndex(a, revision);
    hide FirstBeyond;
    SuffixConcat(a, b, FirstBeyond(a, revision));
  }

  lemma FirstBeyondIndex(events: seq<Event>, revision: int)
    ensures 0 <= FirstBeyond(events, revision) <= |events|
  {
  }

  lemma SuffixConcat<T>(a: seq<T>, b: seq<T>, i: nat)
    requires i < |a|
    ensures (a + b)[i..] == a[i..] + b
  {
  }

  lemma FirstBeyondSame(a: seq<Event>, b: seq<Event>, revision: int)
    requires FirstBeyond(a, revision) < |a|
    ensures FirstBeyond(a + b, revision) == FirstBeyond(a, revision)
  {
    var c := a + b;
    assert forall p :: 0 <= p < |a| ==> c[p] == a[p];
    FirstBeyondUnique(c, revision, FirstBeyond(a, revision));
  }

  lemma {:induction false} FirstBeyondUnique(events: seq<Event>, revision: int, i: nat)
    requires i < |events| && events[i].modRevision > revision
    requires forall p :: 0 <= p < i ==> events[p].modRevision <= revision
    ensures FirstBeyond(events, revision) == i
  {
  }

  /** Skipping what the base holds. */
  lemma BeyondBaseStale(h: History, lo: int, k: int, b: int, n: int)
    requires ValidHistory(h) && 2 <= lo <= k <= LastRevisionOf(h) && lo - 1 <= b < k
    ensures BeyondBase(StaleEvents(h, lo, k, n), b) == Between(h, b + 1, k) + Between(h, lo, n)
  {
    hide ValidHistory;
    var stale := Between(h, lo, k);
    BetweenEnds(h, lo, k);
    BeyondBaseBetween(h, lo, b, k);
    hide Between;
    assert FirstBeyond(stale, b) < |stale|;
    FirstBeyondConcat(stale, Between(h, lo, n), b);
  }

  /** The delta cut from a stale buffer. */
  function StaleDelta(h: History, lo: int, k: int, n: int): Delta {
    Delta(lo, n, StaleEvents(h, lo, k, n))
  }

  /** When a stale delta that ends at `n` restores on top of revision `b`: it is skipped because it
      ends there, or it is not below the revisions buffered twice, and these are all in the base
      or harmless. */
  ghost predicate StaleOk(h: History, lo: int, k: int, n: int, b: int) {
    b == n || (b <= n && k <= n && (k <= b || Harmless(h, lo, k)))
  }

  /** As the first delta over a base at revision `b`. */
  lemma StaleFirst(h: History, lo: int, k: int, n: int, b: int)
    requires ValidHistory(h) && 2 <= lo <= k <= LastRevisionOf(h) && lo <= n <= LastRevisionOf(h)
    requires lo - 1 <= b
    ensures var r := ApplyAndVerify(StateAt(h, b), StaleDelta(h, lo, k, n), true);
            && (r.ok <==> StaleOk(h, lo, k, n, b))
            && (r.ok ==> r.db == StateAt(h, n))
  {
    hide ValidHistory, Regroup, Replay, KvAt, Harmless, Between, EventsAt;
    var db, events := StateAt(h, b), StaleEvents(h, lo, k, n);
    if b > n {
      ReplayAdvances(db, Regroup(BeyondBase(events, b)));
    } else if b < k && b < n {
      BeyondBaseStale(h, lo, k, b, n);
      ReplayStale(h, lo, k, b, n);
    } else if b < n {
      BeyondBaseRepeated(h, lo, k, b, n);
      ReplayBetween(h, b, n);
    }
  }

  lemma BeyondBaseRepeated(h: History, lo: int, k: int, b: int, n: int)
    requires ValidHistory(h) && 2 <= lo <= k <= b < n <= LastRevisionOf(h)
    ensures BeyondBase(StaleEvents(h, lo, k, n), b) == Between(h, b + 1, n)
  {
    hide ValidHistory;
    var stale, again := Between(h, lo, k), Between(h, lo, n);
    BetweenRevisions(h, lo, k);
    BetweenEnds(h, lo, n);
    BeyondBaseBetween(h, lo, b, n);
    hide Between;
    SkipOld(stale, again, b);
  }

  lemma SkipOld(a: seq<Event>, b: seq<Event>, revision: int)
    requires forall e :: e in a ==> e.modRevision <= revision
    requires FirstBeyond(b, revision) < |b|
    ensures BeyondBase(a + b, revision) == BeyondBase(b, revision)
  {
    hide FirstBeyond;
    FirstBeyondLater(a, b, revision);
    FirstBeyondIndex(b, revision);
    var i := FirstBeyond(b, revision);
    assert (a + b)[|a| + i..] == b[i..];
  }

  lemma FirstBeyondLater(a: seq<Event>, b: seq<Event>, revision: int)
    requires forall e :: e in a ==> e.modRevision <= revision
    requires FirstBeyond(b, revision) < |b|
    ensures FirstBeyond(a + b, revision) == |a| + FirstBeyond(b, revision)
  {
    var c := a + b;
    var i := FirstBeyond(b, revision);
    forall p | 0 <= p < |a| + i ensures c[p].modRevision <= revision {
      if p < |a| {
        assert a[p] in a;
      } else {
        assert c[p] == b[p - |a|];
      }
    }
    FirstBeyondUnique(c, revision, |a| + i);
  }

  /** After another delta, which ends at revision `lo - 1`. */
  lemma StaleNext(h: History, lo: int, k: int, n: int)
    requires ValidHistory(h) && 2 <= lo <= k <= LastRevisionOf(h) && lo <= n <= LastRevisionOf(h)
    ensures var r := ApplyAndVerify(StateAt(h, lo - 1), StaleDelta(h, lo, k, n), false);
            && (r.ok <==> StaleOk(h, lo, k, n, lo - 1))
            && (r.ok ==> r.db == StateAt(h, n))
  {
    hide ValidHistory, Regroup, Replay, KvAt, Harmless, Between, EventsAt;
    ReplayStale(h, lo, k, lo - 1, n);
  }

  /** A chain that ends in a stale delta restores if and only if it restores without it, and the
      stale delta does on top of where it ends. */
  lemma StaleChain(h: History, b: int, deltas: seq<Delta>, lo: int, k: int, n: int)
    requires ValidHistory(h) && 2 <= lo <= k <= LastRevisionOf(h) && lo <= n <= LastRevisionOf(h)
    requires 1 <= b <= LastRevisionOf(h) && Chain(h, b, deltas)
    requires if deltas == [] then lo - 1 <= b else ChainEnd(b, deltas) == lo - 1
    ensures var r := Restore(StateAt(h, b), deltas + [StaleDelta(h, lo, k, n)]);
            && (r.Restored? <==>
                  (deltas == [] || b <= deltas[0].lastRevision) && StaleOk(h, lo, k, n, ChainEnd(b, deltas)))
            && (r.Restored? ==> r.db == StateAt(h, n))
  {
    hide ValidHistory, Chain, ApplyAndVerify, StateAt, StaleOk, StaleDelta;
    var all := deltas + [StaleDelta(h, lo, k, n)];
    assert all[..|deltas|] == deltas;
    ChainRestores(h, b, deltas);
    if deltas == [] {
      StaleFirst(h, lo, k, n, b);
    } else {
      StaleNext(h, lo, k, n);
    }
  }
}

/** Copying missing snapshots to another store with a pool of workers
    (pkg/snapshot/copier/copier.go). */
module Copier {
  import opened SnapTypes
  import opened SnapshotName
  import opened Sums

  /** strings.TrimSuffix(name, ".final"), which is also what SetFinal(false) does to a name. */
  function TrimFinal(name: string): (r: string)
    ensures if HasSuffix(name, FINAL_SUFFIX) then name == r + FINAL_SUFFIX else r == name
  {
    if HasSuffix(name, FINAL_SUFFIX) then name[..|name| - |FINAL_SUFFIX|] else name
  }

  /** The names of the source that the destination lacks, in order. */
  function Missing(source: seq<string>, dest: set<string>): seq<string> {
    if source == [] then []
    else
      var init, last := Missing(source[..|source| - 1], dest), source[|source| - 1];
      if TrimFinal(last) in dest then init else init + [last]
  }

  method FindMissing(source: seq<string>, destNames: seq<string>) returns (snapshotsToCopy: seq<string>)
    ensures snapshotsToCopy == Missing(source, set n | n in destNames)
  {
    var destSnapshotsMap: set<string> := {};
    for i := 0 to |destNames|
      invariant destSnapshotsMap == set n | n in destNames[..i]
    {
      destSnapshotsMap := destSnapshotsMap + {destNames[i]};
    }
    assert destNames[..|destNames|] == destNames;
    snapshotsToCopy := [];
    for i := 0 to |source|
      invariant snapshotsToCopy == Missing(source[..i], destSnapshotsMap)
    {
      assert source[..i + 1][..i] == source[..i];
      if TrimFinal(source[i]) !in destSnapshotsMap {
        snapshotsToCopy := snapshotsToCopy + [source[i]];
      }
    }
    assert source[..|source|] == source;
  }

  /** The copy of a snapshot is not final. */
  function CopyOf(s: Snapshot): Snapshot {
    s.(isFinal := false)
  }

  lemma TrimmedName(s: Snapshot)
    requires Supported(s.compressionSuffix)
    ensures TrimFinal(Name(s)) == Name(CopyOf(s)) && !HasSuffix(Name(CopyOf(s)), FINAL_SUFFIX)
  {
    hide Name;
    FinalName(s);
    assert s == s.(isFinal := true) || s == s.(isFinal := false);
  }

  ghost predicate AllSupported(snaps: seq<Snapshot>) {
    forall i :: 0 <= i < |snaps| ==> Supported(snaps[i].compressionSuffix)
  }

  function Names(snaps: seq<Snapshot>): (names: seq<string>)
    ensures |names| == |snaps| && forall i :: 0 <= i < |snaps| ==> names[i] == Name(snaps[i])
  {
    seq(|snaps|, i requires 0 <= i < |snaps| => Name(snaps[i]))
  }

  /** The snapshots of which the destination has no copy, in order. */
  function ToCopy(snaps: seq<Snapshot>, dest: set<string>): seq<Snapshot> {
    if snaps == [] then []
    else
      var init, last := ToCopy(snaps[..|snaps| - 1], dest), snaps[|snaps| - 1];
      if Name(CopyOf(last)) in dest then init else init + [last]
  }

  /** Seen by their metadata, the missing snapshots are those of which the destination has no copy,
      whether they are final or not. */
  lemma {:induction false} MissingByMetadata(snaps: seq<Snapshot>, dest: set<string>)
    requires AllSupported(snaps)
    ensures Missing(Names(snaps), dest) == Names(ToCopy(snaps, dest))
    ensures forall s :: s in ToCopy(snaps, dest) <==> s in snaps && Name(s.(isFinal := false)) !in dest
  {
    hide Name, TrimFinal;
    if snaps != [] {
      var init, last := snaps[..|snaps| - 1], snaps[|snaps| - 1];
      MissingByMetadata(init, dest);
      TrimmedName(last);
      assert Names(snaps)[..|snaps| - 1] == Names(init);
      assert snaps == init + [last];
      assert Names(ToCopy(init, dest) + [last]) == Names(ToCopy(init, dest)) + [Name(last)];
    }
  }

  // ---------------------------------------------------------------------------
  // Workers
  // ---------------------------------------------------------------------------

  datatype Config = Config(items: seq<string>, workers: nat, dest: set<string>)

  datatype Stage = Copying | Reporting | Finishing

  /** An item in the hands of a worker. */
  datatype Job = Job(item: int, stage: Stage)

  datatype Results = Results(
    dest: set<string>,
    allErrors: seq<int>,           // the items whose errors were collected
    copies: seq<nat>,              // how often each item was copied
    failed: set<int>)              // the items whose copy failed

  datatype State = State(
    unsent: seq<int>,
    added: bool,                   // the WaitGroup counts the next item already
    wg: int,
    queue: seq<int>,
    queueClosed: bool,
    errorsClosed: bool,
    busy: seq<Job>,
    exited: nat,
    returned: bool,
    finished: seq<int>,
    results: Results)

  datatype Action =
    | Add
    | Enqueue
    | CloseQueue
    | CloseErrors
    | Take
    | Copy(j: nat, ok: bool, stored: bool)
    | SendError(j: nat)
    | Done(j: nat)
    | Exit
    | Return

  function Init(c: Config): State {
    State(seq(|c.items|, i => i), false, 0, [], false, false, [], 0, false, [],
          Results(c.dest, [], seq(|c.items|, _ => 0), {}))
  }

  function Step(c: Config, s: State, a: Action): State {
    match a
    case Add => if s.unsent != [] && !s.added then s.(added := true, wg := s.wg + 1) else s
    case Enqueue =>
      if s.added && s.unsent != [] && |s.queue| < c.workers then
        s.(added := false, unsent := Drop(s.unsent, 0), queue := s.queue + [s.unsent[0]])
      else s
    case CloseQueue => if s.unsent == [] && s.wg == 0 then s.(queueClosed := true) else s
    case CloseErrors => if s.queueClosed then s.(errorsClosed := true) else s
    case Take =>
      if s.queue != [] && |s.busy| + s.exited < c.workers then
        s.(queue := Drop(s.queue, 0), busy := s.busy + [Job(s.queue[0], Copying)])
      else s
    case Copy(j, ok, stored) => StepCopy(c, s, j, ok, stored)
    case SendError(j) =>
      // the errors channel is unbuffered: the collector receives at the same time
      if j < |s.busy| && s.busy[j].stage.Reporting? && !s.returned then
        s.(busy := s.busy[j := Job(s.busy[j].item, Finishing)],
           results := s.results.(allErrors := s.results.allErrors + [s.busy[j].item]))
      else s
    case Done(j) =>
      if j < |s.busy| && s.busy[j].stage.Finishing? then
        s.(busy := Drop(s.busy, j), wg := s.wg - 1, finished := s.finished + [s.busy[j].item])
      else s
    case Exit =>
      if s.queueClosed && s.queue == [] && |s.busy| + s.exited < c.workers then s.(exited := s.exited + 1) else s
    case Return => if s.errorsClosed then s.(returned := true) else s
  }

  /** Fetch and save; a save that fails may have stored the snapshot all the same. */
  function StepCopy(c: Config, s: State, j: nat, ok: bool, stored: bool): State {
    if j < |s.busy| && s.busy[j].stage.Copying? && 0 <= s.busy[j].item < |c.items| == |s.results.copies| then
      s.(busy := s.busy[j := Job(s.busy[j].item, if ok then Finishing else Reporting)],
         results := CopyItem(c, s.results, s.busy[j].item, ok, stored))
    else s
  }

  function CopyItem(c: Config, r: Results, i: int, ok: bool, stored: bool): Results
    requires 0 <= i < |c.items| == |r.copies|
  {
    Results(if ok || stored then r.dest + {TrimFinal(c.items[i])} else r.dest,
            r.allErrors,
            r.copies[i := r.copies[i] + 1],
            if ok then r.failed else r.failed + {i})
  }

  function Run(c: Config, actions: seq<Action>): State {
    if actions == [] then Init(c)
    else Step(c, Run(c, actions[..|actions| - 1]), actions[|actions| - 1])
  }

  // ---------------------------------------------------------------------------
  // Invariant
  // ---------------------------------------------------------------------------

  function Self(i: int): int { i }
  function JobItem(job: Job): int { job.item }
  function NoWeight<T>(x: T): nat { 0 }

  /** The items, wherever they are. */
  function Items(s: State): multiset<int> {
    Bag(s.unsent, Self) + Bag(s.queue, Self) + Bag(s.busy, JobItem) + Bag(s.finished, Self)
  }

  /** An item that has not been copied. */
  predicate Fresh(c: Config, r: Results, i: int) {
    0 <= i < |c.items| && i < |r.copies| && r.copies[i] == 0 && i !in r.failed && i !in r.allErrors
  }

  /** An item that has been copied once, and whose error, if any, was reported or not yet. */
  predicate Copied(c: Config, r: Results, i: int, reported: bool) {
    && 0 <= i < |c.items| && i < |r.copies| && r.copies[i] == 1
    && (i in r.failed || TrimFinal(c.items[i]) in r.dest)
    && (if reported then (i in r.allErrors <==> i in r.failed) else i in r.failed && i !in r.allErrors)
  }

  predicate JobOk(c: Config, r: Results, job: Job) {
    match job.stage
    case Copying => Fresh(c, r, job.item)
    case Reporting => Copied(c, r, job.item, false)
    case Finishing => Copied(c, r, job.item, true)
  }

  ghost predicate ItemInv(c: Config, s: State) {
    && |s.results.copies| == |c.items|
    && (forall p :: 0 <= p < |s.unsent| ==> Fresh(c, s.results, s.unsent[p]))
    && (forall p :: 0 <= p < |s.queue| ==> Fresh(c, s.results, s.queue[p]))
    && (forall p :: 0 <= p < |s.busy| ==> JobOk(c, s.results, s.busy[p]))
    && (forall p :: 0 <= p < |s.finished| ==> Copied(c, s.results, s.finished[p], true))
    && (forall p, q :: 0 <= p < q < |s.results.allErrors| ==> s.results.allErrors[p] != s.results.allErrors[q])
  }

  ghost predicate CountInv(c: Config, s: State) {
    && Items(s) == Bag(Init(c).unsent, Self)
    && |s.unsent| + |s.queue| + |s.busy| + |s.finished| == |c.items|
    && s.wg == |s.queue| + |s.busy| + (if s.added then 1 else 0)
    && |s.busy| + s.exited <= c.workers
  }

  ghost predicate ChannelInv(s: State) {
    && (s.added ==> s.unsent != [])
    && (s.queueClosed ==> s.unsent == [] && s.wg == 0)
    && (s.exited > 0 ==> s.queueClosed)
    && (s.errorsClosed ==> s.queueClosed)
    && (s.returned ==> s.errorsClosed)
  }

  ghost predicate Inv(c: Config, s: State) {
    ItemInv(c, s) && CountInv(c, s) && ChannelInv(s)
  }

  lemma InitInv(c: Config)
    ensures Inv(c, Init(c))
  {
    EmptyBags();
  }

  lemma EmptyBags()
    ensures Bag<int>([], Self) == multiset{} && Bag<Job>([], JobItem) == multiset{}
  {
  }

  lemma EnqueueKeeps(c: Config, s: State)
    requires Inv(c, s)
    ensures Inv(c, Step(c, s, Enqueue))
  {
    hide Bag, Fresh, Copied, JobOk;
    if s.unsent != [] {
      DropCounts(s.unsent, 0, NoWeight, Self);
      SnocCounts(s.queue, s.unsent[0], NoWeight, Self);
    }
  }

  lemma TakeKeeps(c: Config, s: State)
    requires Inv(c, s)
    ensures Inv(c, Step(c, s, Take))
  {
    hide Bag, Fresh, Copied;
    if s.queue != [] {
      DropCounts(s.queue, 0, NoWeight, Self);
      SnocCounts(s.busy, Job(s.queue[0], Copying), NoWeight, JobItem);
    }
  }

  lemma DoneKeeps(c: Config, s: State, j: nat)
    requires Inv(c, s)
    ensures Inv(c, Step(c, s, Done(j)))
  {
    hide Bag, Fresh, Copied;
    if j < |s.busy| && s.busy[j].stage.Finishing? {
      assert JobOk(c, s.results, s.busy[j]) && Copied(c, s.results, s.busy[j].item, true);
      hide JobOk;
      DropCounts(s.busy, j, NoWeight, JobItem);
      SnocCounts(s.finished, s.busy[j].item, NoWeight, Self);
    }
  }

  lemma OtherKeeps(c: Config, s: State, a: Action)
    requires Inv(c, s) && (a.Add? || a.CloseQueue? || a.CloseErrors? || a.Exit? || a.Return?)
    ensures Inv(c, Step(c, s, a))
  {
    hide Bag, Fresh, Copied, JobOk;
  }

  /** The item in the hands of a worker is nowhere else. */
  lemma OthersDiffer(c: Config, s: State, j: nat)
    requires CountInv(c, s) && j < |s.busy|
    ensures var i := s.busy[j].item;
            && (forall p :: 0 <= p < |s.unsent| ==> s.unsent[p] != i)
            && (forall p :: 0 <= p < |s.queue| ==> s.queue[p] != i)
            && (forall p :: 0 <= p < |s.busy| && p != j ==> s.busy[p].item != i)
            && (forall p :: 0 <= p < |s.finished| ==> s.finished[p] != i)
  {
    hide Bag;
    var i := s.busy[j].item;
    DistinctBag(Init(c).unsent, Self, i);
    DropCounts(s.busy, j, NoWeight, JobItem);
    NotInBag(s.unsent, Self, i);
    NotInBag(s.queue, Self, i);
    NotInBag(Drop(s.busy, j), JobItem, i);
    NotInBag(s.finished, Self, i);
    forall p | 0 <= p < |s.busy| && p != j ensures s.busy[p].item != i {
      assert JobItem(Drop(s.busy, j)[if p < j then p else p - 1]) != i;
    }
  }

  /** What happens to one item does not touch what is known about another. */
  ghost predicate KeepsOthers(c: Config, before: Results, after: Results, i: int) {
    && |after.copies| == |before.copies|
    && (forall k :: 0 <= k < |before.copies| && k != i ==> after.copies[k] == before.copies[k])
    && (forall k :: k != i ==> (k in after.failed <==> k in before.failed))
    && (forall k :: k != i ==> (k in after.allErrors <==> k in before.allErrors))
    && before.dest <= after.dest
  }

  lemma OtherItem(c: Config, before: Results, after: Results, i: int, k: int)
    requires KeepsOthers(c, before, after, i) && k != i
    ensures Fresh(c, before, k) ==> Fresh(c, after, k)
    ensures Copied(c, before, k, true) ==> Copied(c, after, k, true)
    ensures Copied(c, before, k, false) ==> Copied(c, after, k, false)
  {
  }

  lemma JobStepKeeps(c: Config, s: State, j: nat, job: Job, results: Results)
    requires Inv(c, s) && j < |s.busy| && job.item == s.busy[j].item
    requires KeepsOthers(c, s.results, results, job.item) && JobOk(c, results, job)
    requires forall p, q :: 0 <= p < q < |results.allErrors| ==> results.allErrors[p] != results.allErrors[q]
    ensures Inv(c, s.(busy := s.busy[j := job], results := results))
  {
    hide Bag, Fresh, Copied, KeepsOthers;
    assert |results.copies| == |s.results.copies| by { SameLength(c, s.results, results, job.item); }
    OthersDiffer(c, s, j);
    UpdateCounts(s.busy, j, job, NoWeight, JobItem);
    forall k | k != job.item
      ensures Fresh(c, s.results, k) ==> Fresh(c, results, k)
      ensures Copied(c, s.results, k, true) ==> Copied(c, results, k, true)
      ensures Copied(c, s.results, k, false) ==> Copied(c, results, k, false)
    {
      OtherItem(c, s.results, results, job.item, k);
    }
  }

  lemma SameLength(c: Config, before: Results, after: Results, i: int)
    requires KeepsOthers(c, before, after, i)
    ensures |after.copies| == |before.copies|
  {
  }

  lemma CopyKeeps(c: Config, s: State, j: nat, ok: bool, stored: bool)
    requires Inv(c, s)
    ensures Inv(c, Step(c, s, Copy(j, ok, stored)))
  {
    hide CountInv, ChannelInv;
    if j < |s.busy| && s.busy[j].stage.Copying? {
      var i := s.busy[j].item;
      JobStepKeeps(c, s, j, Job(i, if ok then Finishing else Reporting), CopyItem(c, s.results, i, ok, stored));
    }
  }

  lemma SendErrorKeeps(c: Config, s: State, j: nat)
    requires Inv(c, s)
    ensures Inv(c, Step(c, s, SendError(j)))
  {
    hide CountInv, ChannelInv;
    if j < |s.busy| && s.busy[j].stage.Reporting? {
      var i := s.busy[j].item;
      JobStepKeeps(c, s, j, Job(i, Finishing), s.results.(allErrors := s.results.allErrors + [i]));
    }
  }

  lemma StepKeeps(c: Config, s: State, a: Action)
    requires Inv(c, s)
    ensures Inv(c, Step(c, s, a))
  {
    hide Inv, Step;
    match a
    case Enqueue => EnqueueKeeps(c, s);
    case Take => TakeKeeps(c, s);
    case Copy(j, ok, stored) => CopyKeeps(c, s, j, ok, stored);
    case SendError(j) => SendErrorKeeps(c, s, j);
    case Done(j) => DoneKeeps(c, s, j);
    case _ => OtherKeeps(c, s, a);
  }

  lemma {:induction false} RunKeeps(c: Config, actions: seq<Action>)
    ensures Inv(c, Run(c, actions))
  {
    hide Inv, Init, Step;
    if actions == [] {
      InitInv(c);
    } else {
      RunKeeps(c, actions[..|actions| - 1]);
      StepKeeps(c, Run(c, actions[..|actions| - 1]), actions[|actions| - 1]);
    }
  }

  // ---------------------------------------------------------------------------
  // Every run
  // ---------------------------------------------------------------------------

  /** No item is copied twice, the WaitGroup never counts below zero, and nobody sends on a
      closed channel. */
  lemma CopySafety(c: Config, actions: seq<Action>)
    ensures var s := Run(c, actions);
            && |s.results.copies| == |c.items|
            && (forall i :: 0 <= i < |c.items| ==> s.results.copies[i] <= 1)
            && s.wg >= 0 && (s.busy != [] ==> s.wg > 0)
            && (s.queueClosed ==> !s.added && s.queue == [])
            && (s.errorsClosed ==> s.busy == [])
  {
    hide Run, Bag, Items;
    RunKeeps(c, actions);
    var s := Run(c, actions);
    forall i | 0 <= i < |c.items| ensures s.results.copies[i] <= 1 {
      EveryItemIsSomewhere(c, s, i);
    }
  }

  lemma EveryItemIsSomewhere(c: Config, s: State, i: nat)
    requires ItemInv(c, s) && CountInv(c, s) && i < |c.items|
    ensures s.results.copies[i] <= 1
  {
    hide Bag;
    InBag(Init(c).unsent, Self, i);
    assert Self(Init(c).unsent[i]) == i;
    if i in Bag(s.unsent, Self) {
      var p := FromBag(s.unsent, Self, i);
    } else if i in Bag(s.queue, Self) {
      var p := FromBag(s.queue, Self, i);
    } else if i in Bag(s.busy, JobItem) {
      var p := FromBag(s.busy, JobItem, i);
    } else {
      var p := FromBag(s.finished, Self, i);
    }
  }

  /** The action is a copy of item `i` that fails. */
  predicate FailsOn(s: State, a: Action, i: int) {
    a.Copy? && !a.ok && a.j < |s.busy| && s.busy[a.j] == Job(i, Copying)
  }

  /** An item has failed if and only if a copy of it did. */
  lemma {:induction false} FailuresAreReal(c: Config, actions: seq<Action>, i: int)
    ensures i in Run(c, actions).results.failed <==> EverFails(c, actions, i)
  {
    hide Step, FailsOn, Inv, EverFails;
    if actions == [] {
      assert !EverFails(c, actions, i) by { NeverFailed(c, i); }
    } else {
      var init, last := actions[..|actions| - 1], actions[|actions| - 1];
      FailuresAreReal(c, init, i);
      RunKeeps(c, init);
      StepFails(c, Run(c, init), last, i);
      FailsLast(c, actions, i);
    }
  }

  ghost predicate EverFails(c: Config, actions: seq<Action>, i: int) {
    exists k :: 0 <= k < |actions| && FailsOn(Run(c, actions[..k]), actions[k], i)
  }

  lemma NeverFailed(c: Config, i: int)
    ensures !EverFails(c, [], i)
  {
  }

  lemma FailsLast(c: Config, actions: seq<Action>, i: int)
    requires actions != []
    ensures var init, last := actions[..|actions| - 1], actions[|actions| - 1];
            EverFails(c, actions, i) <==> EverFails(c, init, i) || FailsOn(Run(c, init), last, i)
  {
    hide Run, FailsOn;
    var init, last := actions[..|actions| - 1], actions[|actions| - 1];
    assert forall k :: 0 <= k < |init| ==> init[..k] == actions[..k] && init[k] == actions[k];
  }

  lemma StepFails(c: Config, s: State, a: Action, i: int)
    requires Inv(c, s)
    ensures i in Step(c, s, a).results.failed <==> i in s.results.failed || FailsOn(s, a, i)
  {
    hide Items, Copied;
    if a.Copy? && a.j < |s.busy| { assert JobOk(c, s.results, s.busy[a.j]); }
  }

  /** When the copy returns, every missing snapshot was copied exactly once, and the collected
      errors are exactly those of the failed copies. */
  lemma CopyIsComplete(c: Config, actions: seq<Action>)
    requires Run(c, actions).returned
    ensures var s := Run(c, actions);
            && |s.results.copies| == |c.items|
            && (forall i :: 0 <= i < |c.items| ==> Copied(c, s.results, i, true))
            && (forall p, q :: 0 <= p < q < |s.results.allErrors| ==> s.results.allErrors[p] != s.results.allErrors[q])
  {
    hide Run, Bag, Items, Copied;
    RunKeeps(c, actions);
    var s := Run(c, actions);
    forall i | 0 <= i < |c.items| ensures Copied(c, s.results, i, true) {
      FinishedItem(c, s, i);
    }
  }

  lemma FinishedItem(c: Config, s: State, i: nat)
    requires Inv(c, s) && s.returned && i < |c.items|
    ensures Copied(c, s.results, i, true)
  {
    hide Bag, Copied;
    EmptyBags();
    assert Items(s) == Bag(s.finished, Self);
    InBag(Init(c).unsent, Self, i);
    assert Self(Init(c).unsent[i]) == i;
    var p := FromBag(s.finished, Self, i);
  }

  /** Until the copy returns, something can always happen. */
  lemma NoDeadlock(c: Config, actions: seq<Action>) returns (a: Action)
    requires c.workers > 0 && !Run(c, actions).returned
    ensures var s := Run(c, actions); Step(c, s, a) != s
  {
    hide Run;
    RunKeeps(c, actions);
    a := SomeMove(c, Run(c, actions));
  }

  lemma SomeMove(c: Config, s: State) returns (a: Action)
    requires c.workers > 0 && Inv(c, s) && !s.returned
    ensures Step(c, s, a) != s
  {
    hide Items, Copied;
    if s.busy != [] {
      var job := s.busy[0];
      match job.stage
      case Copying =>
        a := Copy(0, true, true);
        assert Step(c, s, a).busy[0] != job;
      case Reporting =>
        a := SendError(0);
        assert Step(c, s, a).busy[0] != job;
      case Finishing =>
        a := Done(0);
    } else if s.queue != [] {
      a := Take;
    } else if s.unsent != [] {
      a := if s.added then Enqueue else Add;
    } else if !s.queueClosed {
      a := CloseQueue;
    } else if !s.errorsClosed {
      a := CloseErrors;
    } else {
      a := Return;
    }
  }

  lemma {:induction false} MissingMembers(source: seq<string>, dest: set<string>)
    ensures forall name :: name in Missing(source, dest) <==> name in source && TrimFinal(name) !in dest
  {
    hide TrimFinal;
    if source != [] {
      var init := source[..|source| - 1];
      assert source == init + [source[|source| - 1]];
      MissingMembers(init, dest);
    }
  }

  lemma {:induction false} NothingMissing(source: seq<string>, dest: set<string>)
    requires forall name :: name in source ==> TrimFinal(name) in dest
    ensures Missing(source, dest) == []
  {
    hide TrimFinal;
    if source != [] {
      NothingMissing(source[..|source| - 1], dest);
    }
  }

  lemma {:induction false} DestinationGrows(c: Config, actions: seq<Action>)
    ensures c.dest <= Run(c, actions).results.dest
  {
    hide Step;
    if actions != [] {
      DestinationGrows(c, actions[..|actions| - 1]);
      StepGrows(c, Run(c, actions[..|actions| - 1]), actions[|actions| - 1]);
    }
  }

  lemma StepGrows(c: Config, s: State, a: Action)
    ensures s.results.dest <= Step(c, s, a).results.dest
  {
    hide TrimFinal;
  }

  /** Whatever is new at the destination is the trimmed name of an item. */
  lemma {:induction false} DestinationNames(c: Config, actions: seq<Action>)
    ensures forall name :: name in Run(c, actions).results.dest ==>
              name in c.dest || exists i :: 0 <= i < |c.items| && name == TrimFinal(c.items[i])
  {
    hide Step;
    if actions != [] {
      DestinationNames(c, actions[..|actions| - 1]);
      StepNames(c, Run(c, actions[..|actions| - 1]), actions[|actions| - 1]);
    }
  }

  lemma StepNames(c: Config, s: State, a: Action)
    ensures forall name :: name in Step(c, s, a).results.dest ==>
              name in s.results.dest || exists i :: 0 <= i < |c.items| && name == TrimFinal(c.items[i])
  {
    hide TrimFinal;
  }

  /** A run over the snapshots `snaps` adds only names of copies that are not final, and once it has
      returned the copies of all snapshots whose copying did not fail. */
  lemma CopiesByMetadata(c: Config, snaps: seq<Snapshot>, actions: seq<Action>)
    requires AllSupported(snaps) && c.items == Names(snaps)
    ensures var s := Run(c, actions);
            && (forall name :: name in s.results.dest && name !in c.dest ==>
                  && !HasSuffix(name, ".final")
                  && exists i :: 0 <= i < |snaps| && name == Name(snaps[i].(isFinal := false)))
            && (s.returned ==>
                  forall i :: 0 <= i < |snaps| && i !in s.results.failed ==>
                    Name(snaps[i].(isFinal := false)) in s.results.dest)
  {
    hide Run, Name, TrimFinal;
    DestinationNames(c, actions);
    forall i | 0 <= i < |snaps| ensures TrimFinal(c.items[i]) == Name(CopyOf(snaps[i])) {
      TrimmedName(snaps[i]);
    }
    var s := Run(c, actions);
    forall name | name in s.results.dest && name !in c.dest
      ensures !HasSuffix(name, FINAL_SUFFIX)
      ensures exists i :: 0 <= i < |snaps| && name == Name(snaps[i].(isFinal := false))
    {
      var i :| 0 <= i < |c.items| && name == TrimFinal(c.items[i]);
      TrimmedName(snaps[i]);
    }
    if s.returned {
      CopyIsComplete(c, actions);
      forall i | 0 <= i < |snaps| && i !in s.results.failed ensures Name(CopyOf(snaps[i])) in s.results.dest {
        assert Copied(c, s.results, i, true);
      }
    }
  }

  /** After a run without errors a second run on the same source copies nothing, final
      snapshots included. */
  lemma SecondRunCopiesNothing(c: Config, source: seq<string>, actions: seq<Action>)
    requires c.items == Missing(source, c.dest)
    requires var s := Run(c, actions); s.returned && s.results.allErrors == []
    ensures Missing(source, Run(c, actions).results.dest) == []
  {
    hide Run, Missing, TrimFinal;
    var s := Run(c, actions);
    CopyIsComplete(c, actions);
    DestinationGrows(c, actions);
    MissingMembers(source, c.dest);
    forall name | name in source ensures TrimFinal(name) in s.results.dest {
      if TrimFinal(name) !in c.dest {
        assert name in c.items;
        var i :| 0 <= i < |c.items| && c.items[i] == name;
        assert Copied(c, s.results, i, true);
      }
    }
    NothingMissing(source, s.results.dest);
  }
}

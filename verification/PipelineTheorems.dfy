/** What holds of every interleaving of the restore pipeline. */
module PipelineTheorems {
  import opened Etcd
  import opened Restorer
  import opened SnapTypes
  import opened RestorePipeline
  import opened PipelineInvariant
  import opened Sums

  // ---------------------------------------------------------------------------
  // Order and safety
  // ---------------------------------------------------------------------------

  /** The applied snapshots are always `0..k-1` in order and each once; the applier waits only
      for a missing file; and it never receives an index it has already applied. */
  lemma PipelineOrder(c: Config, actions: seq<Action>)
    requires |c.deltas| > 0
    ensures var s := Run(c, actions);
            && s.applied == seq(|s.applied|, i => i)
            && |s.applied| <= |c.deltas|
            && (s.applier.Waiting? ==> |s.applied| < |s.pathList| && !s.pathList[|s.applied|])
            && (s.applier.Waiting? && s.channel != [] && s.channel[0].Ready? ==> s.channel[0].index >= |s.applied|)
  {
    hide Run, Applied, ApplyAndVerify, Failures, QueueInv, FetcherInv, LocationInv;
    RunKeeps(c, actions);
  }

  /** Once a fetch or a persist has failed, nil is never reported. */
  lemma FailureSafety(c: Config, actions: seq<Action>)
    requires |c.deltas| > 0
    ensures var s := Run(c, actions);
            s.failed != {} ==> Nil !in s.reports && s.result != Some(Nil)
  {
    hide Run, Applied, ApplyAndVerify, Tokens, Channels, QuietInv;
    RunKeeps(c, actions);
  }

  /** The deltas after the first one, restored one after the other. */
  lemma {:induction false} AppliedIsRestore(base: Db, deltas: seq<Delta>, c: Config, k: nat)
    requires deltas != [] && c.deltas == deltas[1..] && k <= |c.deltas|
    requires Restore(base, deltas[..1]) == Restored(c.start)
    ensures var r := Restore(base, deltas[..k + 1]);
            if Applied(c, k).ok then r == Restored(Applied(c, k).db) else r.FailedAt?
  {
    hide ApplyAndVerify;
    if k > 0 {
      AppliedIsRestore(base, deltas, c, k - 1);
      assert deltas[..k + 1][..k] == deltas[..k];
    }
  }

  /** Started after the first delta, the pipeline reports success only with the database of the
      sequential restore, and an error only if something failed or the sequential restore
      fails as well. */
  lemma PipelineRefinesRestore(base: Db, deltas: seq<Delta>, c: Config, actions: seq<Action>)
    requires |deltas| > 1 && c.deltas == deltas[1..]
    requires Restore(base, deltas[..1]) == Restored(c.start)
    ensures var s := Run(c, actions);
            && (s.result == Some(Nil) ==> Restore(base, deltas) == Restored(s.db))
            && (s.result == Some(Failure) ==> s.failed != {} || s.unread || Restore(base, deltas).FailedAt?)
  {
    hide Run, Applied, Restore, Tokens, Channels, OrderInv, Failures;
    RunKeeps(c, actions);
    AppliedIsRestore(base, deltas, c, |c.deltas|);
    assert deltas[..|c.deltas| + 1] == deltas;
  }

  // ---------------------------------------------------------------------------
  // No send blocks and no deadlock without failures
  // ---------------------------------------------------------------------------

  predicate Missing(s: seq<nat>, n: nat, x: nat) {
    && (forall p :: 0 <= p < |s| ==> s[p] < n && s[p] != x)
    && (forall p, q :: 0 <= p < q < |s| ==> s[p] != s[q])
  }

  /** Distinct numbers below `n` that leave one out are fewer than `n`. */
  lemma {:induction false} Pigeonhole(s: seq<nat>, n: nat, x: nat)
    requires x < n && Missing(s, n, x)
    ensures |s| < n
    decreases n
  {
    if s != [] {
      var last := s[|s| - 1];
      var rest := s[..|s| - 1];
      // rename n - 1 to `last`, so that the rest lies below n - 1
      var renamed := seq(|rest|, p requires 0 <= p < |rest| => if rest[p] == n - 1 then last else rest[p]);
      Pigeonhole(renamed, n - 1, if x == n - 1 then last else x);
    }
  }

  function Indices(channel: seq<Message>): (r: seq<nat>)
    requires forall p :: 0 <= p < |channel| ==> channel[p].Ready?
    ensures |r| == |channel| && forall p :: 0 <= p < |r| ==> r[p] == channel[p].index
  {
    seq(|channel|, p requires 0 <= p < |channel| => channel[p].index)
  }

  /** A fetcher about to announce a file always has room for it. */
  lemma LocationHasRoom(c: Config, s: State, f: nat)
    requires Inv(c, s) && f < |s.fetchers| && s.fetchers[f].Locating?
    ensures |s.locations| < |c.deltas|
  {
    hide QueueInv, ChannelInv, Outcome, Failures;
    Pigeonhole(s.locations, |c.deltas|, s.fetchers[f].index);
  }

  lemma ChannelHasRoom(c: Config, s: State, f: nat)
    requires Inv(c, s) && s.failed == {} && f < |s.fetchers| && s.fetchers[f].Sending?
    ensures |s.channel| < |c.deltas|
  {
    hide QueueInv, LocationInv, Outcome, FailureInv;
    Pigeonhole(Indices(s.channel), |c.deltas|, s.fetchers[f].index);
  }

  /** In a run without failed fetches every send finds room, so no goroutine is ever blocked
      on a full channel. */
  lemma NoSendBlocks(c: Config, actions: seq<Action>)
    requires |c.deltas| > 0 && Run(c, actions).failed == {}
    ensures var s := Run(c, actions);
            && (s.sent < |c.deltas| ==> |s.queue| < |c.deltas|)
            && (s.applier.Reporting? ==> s.errCh == [])
            && forall f :: 0 <= f < |s.fetchers| ==>
                 && !s.fetchers[f].OwesAbort()
                 && (s.fetchers[f].Locating? ==> |s.locations| < |c.deltas|)
                 && (s.fetchers[f].Sending? ==> |s.channel| < |c.deltas|)
  {
    hide Run, QueueInv, FetcherInv, Channels, Outcome;
    RunKeeps(c, actions);
    var s := Run(c, actions);
    forall f | 0 <= f < |s.fetchers|
      ensures s.fetchers[f].Locating? ==> |s.locations| < |c.deltas|
      ensures s.fetchers[f].Sending? ==> |s.channel| < |c.deltas|
    {
      if s.fetchers[f].Locating? { LocationHasRoom(c, s, f); }
      if s.fetchers[f].Sending? { ChannelHasRoom(c, s, f); }
    }
  }

  /** The action a fetcher takes next. */
  function Next(s: State, f: nat): Action
    requires f < |s.fetchers|
  {
    match s.fetchers[f]
    case Fetching(_) => Fetch(f, true)
    case Persisting(_) => Persist(f, true)
    case Idle => Take(f)
    case Exited => Take(f)
    case _ => Send(f)
  }

  lemma BusyFetcherMoves(c: Config, s: State, f: nat)
    requires Inv(c, s) && s.failed == {} && f < |s.fetchers| && s.fetchers[f].Holds().Some?
    ensures Step(c, s, Next(s, f)).fetchers != s.fetchers
  {
    hide QueueInv, Channels, Outcome, QuietInv;
    var t := Step(c, s, Next(s, f));
    if s.fetchers[f].Locating? { LocationHasRoom(c, s, f); }
    if s.fetchers[f].Sending? { ChannelHasRoom(c, s, f); }
    assert t.fetchers[f] != s.fetchers[f];
  }

  lemma QueueMoves(c: Config, s: State, f: nat)
    requires Inv(c, s) && s.failed == {} && f < |s.fetchers| && s.queue != [] && !s.stopped
    ensures Step(c, s, Next(s, f)).fetchers != s.fetchers
  {
    hide Channels, Outcome, Failures;
    if s.fetchers[f].Idle? {
      assert Step(c, s, Take(f)).fetchers[f].Fetching?;
    } else {
      hide Step, QueueInv;
      assert !s.fetchers[f].Exited? by { assert QueueInv(s); }
      BusyFetcherMoves(c, s, f);
    }
  }

  /** Whatever the waiting applier waits for can be moved on. */
  lemma WaitingMoves(c: Config, s: State) returns (a: Action)
    requires Inv(c, s) && s.failed == {} && c.fetchers > 0 && |c.deltas| > 0
    requires s.queueClosed && !s.stopped && s.applier.Waiting?
    ensures Step(c, s, a) != s
  {
    hide Step, LocationInv, ReportInv, Failures, Applied, ApplyAndVerify;
    var k := s.nextSnapIndexToApply;
    match s.place[k]
    case Queued =>
      a := Next(s, 0);
      QueueMoves(c, s, 0);
    case Held(f) =>
      a := Next(s, f);
      BusyFetcherMoves(c, s, f);
    case InChannel =>
      a := Receive;
      ReceiveMoves(c, s);
    case _ =>
  }

  lemma ReceiveMoves(c: Config, s: State)
    requires Inv(c, s) && s.applier.Waiting? && s.channel != []
    ensures Step(c, s, Receive) != s
  {
    hide QueueInv, FetcherInv, LocationInv, ReportInv, Failures, Applied;
  }

  lemma ApplierMoves(c: Config, s: State)
    requires Inv(c, s) && s.failed == {}
    ensures s.applier.Applying? ==> Step(c, s, Apply(true)) != s
    ensures s.applier.Reporting? ==> Step(c, s, Report) != s
  {
    hide Tokens, Channels, FailureInv, Applied, ApplyAndVerify;
  }

  /** Without a failed fetch the restore never gets stuck before it has its result. */
  lemma NoDeadlock(c: Config, actions: seq<Action>) returns (a: Action)
    requires |c.deltas| > 0 && c.fetchers > 0
    requires Run(c, actions).failed == {} && Run(c, actions).result.None?
    ensures Run(c, actions + [a]) != Run(c, actions)
  {
    hide Inv, Run;
    var s := Run(c, actions);
    RunKeeps(c, actions);
    a := SomeMove(c, s);
    RunSnoc(c, actions, a);
  }

  lemma RunSnoc(c: Config, actions: seq<Action>, a: Action)
    ensures Run(c, actions + [a]) == Step(c, Run(c, actions), a)
  {
    assert (actions + [a])[..|actions|] == actions;
  }

  lemma SomeMove(c: Config, s: State) returns (a: Action)
    requires Inv(c, s) && |c.deltas| > 0 && c.fetchers > 0 && s.failed == {} && s.result.None?
    ensures Step(c, s, a) != s
  {
    hide QueueInv, FetcherInv, Channels, Outcome, FailureInv;
    ApplierMoves(c, s);
    if !s.queueClosed {
      a := if s.sent < |c.deltas| then Enqueue else CloseQueue;
    } else if s.applier.Applying? {
      a := Apply(true);
    } else if s.applier.Reporting? {
      a := Report;
    } else if s.applier.Waiting? {
      a := WaitingMoves(c, s);
    } else {
      a := MainReceive;
    }
  }

  // ---------------------------------------------------------------------------
  // Termination, with or without failures
  // ---------------------------------------------------------------------------

  function PlaceRank(p: Place): nat {
    match p
    case Unqueued => 15
    case Queued => 14
    case Held(_) => 4
    case InChannel => 3
    case _ => 0
  }

  function FetcherRank(f: Fetcher): nat {
    match f
    case Fetching(_) => 9
    case FetchReport(_) => 8
    case FetchAbort(_) => 7
    case Persisting(_) => 6
    case PersistReport(_) => 5
    case PersistAbort(_) => 4
    case Locating(_) => 3
    case Sending(_) => 2
    case Idle => 1
    case Exited => 0
  }

  function ApplierRank(a: Applier): nat {
    match a
    case Applying => 3
    case Reporting(_) => 2
    case Waiting => 1
    case Returned => 0
  }

  /** An upper bound on the number of effective steps still to come. */
  function Rank(c: Config, s: State): int {
    Sum(s.place, PlaceRank) + Sum(s.fetchers, FetcherRank) + ApplierRank(s.applier)
    + (|c.deltas| - s.nextSnapIndexToApply) + (if s.queueClosed then 0 else 1) + (if s.result.None? then 1 else 0)
  }

  lemma TakeDecreases(c: Config, s: State, f: nat)
    requires Inv(c, s)
    ensures var t := StepTake(s, f); t == s || Rank(c, t) < Rank(c, s)
  {
    hide Sum, FetcherInv, ChannelInv, LocationInv, Outcome, Failures;
    if f < |s.fetchers| && s.fetchers[f].Idle? {
      var t := StepTake(s, f);
      SumUpdate(s.fetchers, FetcherRank, f, t.fetchers[f]);
      if s.queue != [] { SumUpdate(s.place, PlaceRank, s.queue[0], t.place[s.queue[0]]); }
    }
  }

  lemma WorkDecreases(c: Config, s: State, f: nat, ok: bool)
    ensures var t := StepFetch(s, f, ok); t == s || Rank(c, t) < Rank(c, s)
    ensures var t := StepPersist(s, f, ok); t == s || Rank(c, t) < Rank(c, s)
  {
    hide Sum;
    if f < |s.fetchers| {
      SumUpdate(s.fetchers, FetcherRank, f, StepFetch(s, f, ok).fetchers[f]);
      SumUpdate(s.fetchers, FetcherRank, f, StepPersist(s, f, ok).fetchers[f]);
    }
  }

  lemma SendDecreases(c: Config, s: State, f: nat)
    requires Inv(c, s)
    ensures var t := StepSend(c, s, f); t == s || Rank(c, t) < Rank(c, s)
  {
    hide Sum, QueueInv, ChannelInv, LocationInv, Outcome, Failures;
    if f < |s.fetchers| {
      var t := StepSend(c, s, f);
      SumUpdate(s.fetchers, FetcherRank, f, t.fetchers[f]);
      if s.fetchers[f].Sending? { SumUpdate(s.place, PlaceRank, s.fetchers[f].index, InChannel); }
    }
  }

  lemma ReceiveDecreases(c: Config, s: State)
    requires Inv(c, s)
    ensures var t := StepReceive(s); t == s || Rank(c, t) < Rank(c, s)
  {
    hide Sum, QueueInv, FetcherInv, LocationInv, Outcome, Failures;
    if s.channel != [] && s.channel[0].Ready? {
      SumUpdate(s.place, PlaceRank, s.channel[0].index, Received);
    }
  }

  lemma ApplierDecreases(c: Config, s: State, a: Action)
    requires a.Apply? || a.Report? || a.StopApplier?
    ensures var t := Step(c, s, a); t == s || Rank(c, t) < Rank(c, s)
  {
    hide Sum, ApplyAndVerify;
  }

  lemma MainDecreases(c: Config, s: State, a: Action)
    requires Inv(c, s) && (a.Enqueue? || a.CloseQueue? || a.MainReceive?)
    ensures var t := Step(c, s, a); t == s || Rank(c, t) < Rank(c, s)
  {
    hide Sum, FetcherInv, Channels, Outcome, Failures;
    if s.sent < |c.deltas| { SumUpdate(s.place, PlaceRank, s.sent, Queued); }
  }

  lemma StepDecreases(c: Config, s: State, a: Action)
    requires Inv(c, s)
    ensures var t := Step(c, s, a); t == s || Rank(c, t) < Rank(c, s)
  {
    hide Inv, Rank, StepTake, StepFetch, StepPersist, StepSend, StepReceive;
    match a
    case Take(f) => TakeDecreases(c, s, f);
    case Fetch(f, ok) => WorkDecreases(c, s, f, ok);
    case Persist(f, ok) => WorkDecreases(c, s, f, ok);
    case Send(f) => SendDecreases(c, s, f);
    case Receive => ReceiveDecreases(c, s);
    case Apply(_) => ApplierDecreases(c, s, a);
    case Report => ApplierDecreases(c, s, a);
    case StopApplier => ApplierDecreases(c, s, a);
    case _ => MainDecreases(c, s, a);
  }

  /** Every step of the run changes the state. */
  ghost predicate Effective(c: Config, actions: seq<Action>) {
    actions == [] ||
    (var init := actions[..|actions| - 1]; Effective(c, init) && Run(c, actions) != Run(c, init))
  }

  lemma {:induction false} RankBoundsRun(c: Config, actions: seq<Action>)
    requires |c.deltas| > 0 && Effective(c, actions)
    ensures Rank(c, Run(c, actions)) + |actions| <= 16 * |c.deltas| + c.fetchers + 3
  {
    hide Inv, Step, Run;
    if actions == [] {
      assert Run(c, []) == Init(c) by { RunEmpty(c); }
      SumConstant(Init(c).place, PlaceRank, Unqueued);
      SumConstant(Init(c).fetchers, FetcherRank, Idle);
    } else {
      hide Rank;
      var last := |actions| - 1;
      var init := actions[..last];
      assert init + [actions[last]] == actions;
      RankBoundsRun(c, init);
      RunKeeps(c, init);
      StepDecreases(c, Run(c, init), actions[last]);
      RunSnoc(c, init, actions[last]);
    }
  }

  lemma RunEmpty(c: Config)
    ensures Run(c, []) == Init(c)
  {
  }

  /** Every interleaving ends after a bounded number of steps, failures or not; together with
      `NoDeadlock`, every complete run without a failed fetch ends with a result. */
  lemma PipelineTerminates(c: Config, actions: seq<Action>)
    requires |c.deltas| > 0 && Effective(c, actions)
    ensures |actions| <= 16 * |c.deltas| + c.fetchers + 3
  {
    RankBoundsRun(c, actions);
    RunKeeps(c, actions);
  }

  // ---------------------------------------------------------------------------
  // After the stop
  // ---------------------------------------------------------------------------

  /** The stop channel is closed when the result is received. */
  lemma {:induction false} StoppedWithResult(c: Config, actions: seq<Action>)
    ensures Run(c, actions).result.Some? <==> Run(c, actions).stopped
  {
    hide Step;
    if actions != [] {
      var before, last := Run(c, actions[..|actions| - 1]), actions[|actions| - 1];
      StoppedWithResult(c, actions[..|actions| - 1]);
      StopsWithResult(c, before, last);
    }
  }

  lemma StopsWithResult(c: Config, s: State, a: Action)
    requires s.result.Some? <==> s.stopped
    ensures Step(c, s, a).result.Some? <==> Step(c, s, a).stopped
  {
    match a
    case Send(g) =>
      hide StepTake, StepFetch, StepPersist, StepApply, StepReceive;
      SendAfterStop(c, s, g, 0);
    case _ => hide StepSend, ApplyAndVerify;
  }

  /** Once the result is received, no fetcher begins another fetch. */
  lemma NothingFetchedAfterResult(c: Config, actions: seq<Action>, more: seq<Action>, f: nat)
    requires Run(c, actions).result.Some?
    ensures var s, t := Run(c, actions), Run(c, actions + more);
            && |t.fetchers| == |s.fetchers|
            && (f < |t.fetchers| && t.fetchers[f].Fetching? ==> t.fetchers[f] == s.fetchers[f])
  {
    hide Run;
    StoppedWithResult(c, actions);
    NothingFetchedAfterStop(c, actions, more, f);
  }

  lemma {:induction false} NothingFetchedAfterStop(c: Config, actions: seq<Action>, more: seq<Action>, f: nat)
    requires Run(c, actions).stopped
    ensures var s, t := Run(c, actions), Run(c, actions + more);
            && t.stopped && |t.fetchers| == |s.fetchers|
            && (f < |t.fetchers| && t.fetchers[f].Fetching? ==> t.fetchers[f] == s.fetchers[f])
  {
    hide Step;
    if more == [] {
      assert actions + more == actions;
    } else {
      var init, last := more[..|more| - 1], more[|more| - 1];
      assert (actions + more)[..|actions + more| - 1] == actions + init;
      NothingFetchedAfterStop(c, actions, init, f);
      StepAfterStop(c, Run(c, actions + init), last, f);
    }
  }

  lemma StepAfterStop(c: Config, s: State, a: Action, f: nat)
    requires s.stopped
    ensures var t := Step(c, s, a);
            && t.stopped && |t.fetchers| == |s.fetchers|
            && (f < |t.fetchers| && t.fetchers[f].Fetching? ==> t.fetchers[f] == s.fetchers[f])
  {
    match a
    case Take(g) => hide StepFetch, StepPersist, StepSend, StepApply, StepReceive;
    case Fetch(g, ok) => hide StepTake, StepPersist, StepSend, StepApply, StepReceive;
    case Persist(g, ok) => hide StepTake, StepFetch, StepSend, StepApply, StepReceive;
    case Send(g) =>
      hide StepTake, StepFetch, StepPersist, StepApply, StepReceive;
      SendAfterStop(c, s, g, f);
    case _ => hide StepTake, StepFetch, StepPersist, StepSend, ApplyAndVerify;
  }

  lemma SendAfterStop(c: Config, s: State, g: nat, f: nat)
    ensures var t := StepSend(c, s, g);
            && t.stopped == s.stopped && t.result == s.result && |t.fetchers| == |s.fetchers|
            && (f < |t.fetchers| && t.fetchers[f].Fetching? ==> t.fetchers[f] == s.fetchers[f])
  {
    if g < |s.fetchers| {
      match s.fetchers[g]
      case FetchReport(i) => hide SendAbort, SendLocation, SendIndex;
      case PersistReport(i) => hide SendAbort, SendLocation, SendIndex;
      case FetchAbort(i) => hide SendError, SendLocation, SendIndex;
      case PersistAbort(i) => hide SendError, SendLocation, SendIndex;
      case Locating(i) => hide SendError, SendAbort, SendIndex;
      case Sending(i) => hide SendError, SendAbort, SendLocation;
      case _ =>
    }
  }
}

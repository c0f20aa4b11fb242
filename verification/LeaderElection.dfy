/** The leader election loop and what it starts and stops (pkg/leaderelection/leaderelection.go
    and the callbacks in pkg/server/backuprestoreserver.go). */
module LeaderElection {
  import opened SnapTypes

  datatype ElectorState = Follower | Candidate | Leader | Unknown

  /** What CheckMemberStatus returns. */
  datatype Status = Failed | Member(isLeader: bool, isLearner: bool)

  datatype Call = Started | Cancel | Stopped | StartRenewal | StopRenewal | Promote

  // ---------------------------------------------------------------------------
  // Specification
  // ---------------------------------------------------------------------------

  function Next(state: ElectorState, status: Status): ElectorState {
    match status
    case Failed => Unknown
    case Member(isLeader, _) =>
      if isLeader then Leader
      else if state.Leader? || state.Unknown? then Follower
      else state
  }

  function Calls(state: ElectorState, status: Status): seq<Call> {
    match status
    case Failed =>
      (if state.Unknown? then [] else [StopRenewal]) + (if state.Leader? then [Cancel, Stopped] else [])
    case Member(isLeader, isLearner) =>
      if isLeader && !state.Leader? then (if state.Unknown? then [StartRenewal] else []) + [Started]
      else if !isLeader && state.Leader? then [Cancel, Stopped]
      else if !isLeader && state.Unknown? then [StartRenewal]
      else if !isLeader && state.Follower? && isLearner then [Promote]
      else []
  }

  function StateAfter(statuses: seq<Status>): ElectorState {
    if statuses == [] then Follower
    else Next(StateAfter(statuses[..|statuses| - 1]), statuses[|statuses| - 1])
  }

  function CallsAfter(statuses: seq<Status>): seq<Call> {
    if statuses == [] then []
    else
      var init := statuses[..|statuses| - 1];
      CallsAfter(init) + Calls(StateAfter(init), statuses[|statuses| - 1])
  }

  // ---------------------------------------------------------------------------
  // What the callbacks rely on
  // ---------------------------------------------------------------------------

  /** What an observer of the calls knows: whether the server leads, whether the leading
      context is live, and whether the member lease is being renewed. */
  datatype Monitor = Monitor(leading: bool, live: bool, renewing: bool)

  /** A call in the wrong order is a violation. */
  function Observe(m: Monitor, call: Call): Option<Monitor> {
    match call
    case Started => if m.leading || m.live then None else Some(m.(leading := true, live := true))
    case Cancel => if m.live then Some(m.(live := false)) else None
    case Stopped => if m.leading && !m.live then Some(m.(leading := false)) else None
    case StartRenewal => if m.renewing then None else Some(m.(renewing := true))
    case StopRenewal => if m.renewing then Some(m.(renewing := false)) else None
    case Promote => if m.leading then None else Some(m)
  }

  function ObserveAll(m: Monitor, calls: seq<Call>): Option<Monitor> {
    if calls == [] then Some(m)
    else
      match ObserveAll(m, calls[..|calls| - 1])
      case None => None
      case Some(before) => Observe(before, calls[|calls| - 1])
  }

  function Expected(state: ElectorState): Monitor {
    Monitor(state.Leader?, state.Leader?, !state.Unknown?)
  }

  lemma {:induction false} ObserveConcat(m: Monitor, a: seq<Call>, b: seq<Call>)
    ensures ObserveAll(m, a + b) ==
            match ObserveAll(m, a) case None => None case Some(between) => ObserveAll(between, b)
  {
    if b == [] {
      assert a + b == a;
    } else {
      var init := b[..|b| - 1];
      assert (a + b)[..|a + b| - 1] == a + init;
      ObserveConcat(m, a, init);
    }
  }

  lemma ObserveOne(m: Monitor, call: Call)
    ensures ObserveAll(m, [call]) == Observe(m, call)
  {
    assert [call][..0] == [];
    assert ObserveAll(m, [call][..0]) == Some(m);
  }

  lemma ObserveTwo(m: Monitor, first: Call, second: Call)
    ensures ObserveAll(m, [first, second]) ==
            match Observe(m, first) case None => None case Some(between) => Observe(between, second)
  {
    assert [first, second][..1] == [first];
    ObserveOne(m, first);
  }

  lemma ObserveStep(state: ElectorState, status: Status)
    ensures ObserveAll(Expected(state), Calls(state, status)) == Some(Expected(Next(state, status)))
  {
    hide ObserveAll;
    var m := Expected(state);
    assert forall m :: ObserveAll(m, []) == Some(m) by { ObserveNothing(); }
    match status
    case Failed =>
      ObserveConcat(m, if state.Unknown? then [] else [StopRenewal], if state.Leader? then [Cancel, Stopped] else []);
      ObserveOne(m, StopRenewal);
      ObserveTwo(m.(renewing := false), Cancel, Stopped);
    case Member(isLeader, isLearner) =>
      ObserveConcat(m, if state.Unknown? then [StartRenewal] else [], [Started]);
      ObserveOne(m, StartRenewal);
      ObserveOne(m.(renewing := true), Started);
      ObserveTwo(m, Cancel, Stopped);
      ObserveOne(m, Promote);
  }

  lemma ObserveNothing()
    ensures forall m :: ObserveAll(m, []) == Some(m)
  {
  }

  /** Over every run, starting and stopping to lead alternate, the leading context is live
      exactly in the leader state, and the lease is renewed exactly outside the unknown state. */
  lemma {:induction false} CallsAreOrdered(statuses: seq<Status>)
    ensures ObserveAll(Expected(Follower), CallsAfter(statuses)) == Some(Expected(StateAfter(statuses)))
  {
    hide ObserveAll, Calls, Next;
    if statuses == [] {
      ObserveNothing();
    } else {
      var init, last := statuses[..|statuses| - 1], statuses[|statuses| - 1];
      CallsAreOrdered(init);
      ObserveStep(StateAfter(init), last);
      ObserveConcat(Expected(Follower), CallsAfter(init), Calls(StateAfter(init), last));
    }
  }

  /** Where the last status check, if there was one, leaves the server. */
  predicate LastLeads(statuses: seq<Status>) {
    statuses != [] && statuses[|statuses| - 1].Member? && statuses[|statuses| - 1].isLeader
  }

  predicate LastFailed(statuses: seq<Status>) {
    statuses != [] && statuses[|statuses| - 1].Failed?
  }

  /** The last status alone decides the state. */
  lemma {:induction false} StateIsLastStatus(statuses: seq<Status>)
    ensures StateAfter(statuses) ==
            if LastLeads(statuses) then Leader else if LastFailed(statuses) then Unknown else Follower
  {
    if statuses != [] { StateIsLastStatus(statuses[..|statuses| - 1]); }
  }

  /** Which calls a round makes, for every run before it: it starts to lead when the status becomes
      leader, stops when it no longer is, stops the renewal on the first failed check and starts it
      on the first one after that, and promotes a learner that has been a follower. */
  lemma RoundCalls(statuses: seq<Status>, status: Status)
    ensures var calls := Calls(StateAfter(statuses), status);
            var leads := status.Member? && status.isLeader;
            && CallsAfter(statuses + [status]) == CallsAfter(statuses) + calls
            && (Started in calls <==> leads && !LastLeads(statuses))
            && (Cancel in calls <==> !leads && LastLeads(statuses))
            && (Stopped in calls <==> !leads && LastLeads(statuses))
            && (StopRenewal in calls <==> status.Failed? && !LastFailed(statuses))
            && (StartRenewal in calls <==> !status.Failed? && LastFailed(statuses))
            && (Promote in calls <==>
                  && status.Member? && !status.isLeader && status.isLearner
                  && !LastLeads(statuses) && !LastFailed(statuses))
            && (forall i, j :: 0 <= i < j < |calls| ==> calls[i] != calls[j])
  {
    hide StateAfter, Calls;
    assert (statuses + [status])[..|statuses|] == statuses;
    StateIsLastStatus(statuses);
    CallsOnce(StateAfter(statuses), status);
    CallsByState(StateAfter(statuses), status);
  }

  lemma CallsByState(state: ElectorState, status: Status)
    requires !state.Candidate?
    ensures var calls := Calls(state, status);
            var leads := status.Member? && status.isLeader;
            && (Started in calls <==> leads && !state.Leader?)
            && (Cancel in calls <==> !leads && state.Leader?)
            && (Stopped in calls <==> !leads && state.Leader?)
            && (StopRenewal in calls <==> status.Failed? && !state.Unknown?)
            && (StartRenewal in calls <==> !status.Failed? && state.Unknown?)
            && (Promote in calls <==> status.Member? && !status.isLeader && status.isLearner && state.Follower?)
  {
    var calls := Calls(state, status);
    match status
    case Failed =>
      if state.Leader? { assert calls == [StopRenewal, Cancel, Stopped]; }
      if state.Follower? { assert calls == [StopRenewal]; }
    case Member(isLeader, isLearner) =>
      if isLeader && state.Unknown? { assert calls == [StartRenewal, Started]; }
      if isLeader && state.Follower? { assert calls == [Started]; }
  }

  lemma CallsOnce(state: ElectorState, status: Status)
    ensures var calls := Calls(state, status); forall i, j :: 0 <= i < j < |calls| ==> calls[i] != calls[j]
  {
  }

  // ---------------------------------------------------------------------------
  // Implementation
  // ---------------------------------------------------------------------------

  datatype Use = SsrStop | GcStop | LeaseStop

  datatype Channel = Channel(use: Use, closed: bool, receivers: nat)

  /** The goroutine that closes a stop channel once its context is cancelled. */
  datatype Closer = Closer(context: nat, channel: nat, done: bool)

  datatype Input = Poll(status: Status) | RunCloser(k: nat)

  function Statuses(inputs: seq<Input>): seq<Status> {
    if inputs == [] then []
    else
      var init, last := Statuses(inputs[..|inputs| - 1]), inputs[|inputs| - 1];
      if last.Poll? then init + [last.status] else init
  }

  /** Each stop channel of the snapshotter has one closer, which has closed it or not. */
  predicate CloserOk(c: Closer, channels: seq<Channel>, contexts: nat, live: set<nat>) {
    && c.context < contexts && c.channel < |channels| && channels[c.channel].use == SsrStop
    && (channels[c.channel].closed <==> c.done)
    && (c.done ==> c.context !in live)
  }

  /** Who may still be stopped: at most the current lease renewal, and the garbage collector of
      the current term. The first collector channel was never handed to anybody. */
  ghost predicate NoLeaks(channels: seq<Channel>, collecting: bool, backupGcStop: nat, mmStopCh: nat) {
    && (forall ch :: 0 <= ch < |channels| && channels[ch].receivers > 0 ==> ch == mmStopCh)
    && (forall ch :: 1 <= ch < |channels| && channels[ch].use.GcStop? && !channels[ch].closed ==>
                       collecting && ch == backupGcStop)
  }

  /** The snapshotter of the current term has its closer. */
  predicate NewestCloser(closers: seq<Closer>, context: nat, channel: nat) {
    closers != [] && closers[|closers| - 1] == Closer(context, channel, false)
  }

  /** A new term does not concern the closers of earlier ones. */
  lemma CloserLater(c: Closer, channels: seq<Channel>, later: seq<Channel>, contexts: nat, live: set<nat>)
    requires CloserOk(c, channels, contexts, live)
    requires |channels| <= |later| && forall i :: 0 <= i < |channels| ==> later[i] == channels[i]
    ensures CloserOk(c, later, contexts + 1, live + {contexts}) && c.channel < |channels|
  {
  }

  class Server {
    const runServerWithSnapshotter: bool
    const backupSyncEnabled: bool
    const memberLeaseRenewalEnabled: bool
    var currentState: ElectorState
    var leCtx: Option<nat>
    var contexts: nat              // contexts created so far
    var live: set<nat>             // those not cancelled
    var channels: seq<Channel>
    var ssrStopCh: nat
    var backupGcStop: nat
    var mmStopCh: nat
    var closers: seq<Closer>
    var calls: seq<Call>

    ghost predicate Valid()
      reads this
    {
      ValidIn(currentState)
    }

    /** The invariant of a state, which may be entered next. */
    ghost predicate ValidIn(state: ElectorState)
      reads this
    {
      && !state.Candidate?
      && (state.Leader? ==> leCtx.Some? && leCtx.value < contexts)
      && live == (if state.Leader? then {leCtx.value} else {})
      && mmStopCh < |channels| && channels[mmStopCh].use == LeaseStop && !channels[mmStopCh].closed
      && channels[mmStopCh].receivers == (if memberLeaseRenewalEnabled && !state.Unknown? then 1 else 0)
      && backupGcStop < |channels| && channels[backupGcStop].use == GcStop
      && (state.Leader? && runServerWithSnapshotter ==>
            NewestCloser(closers, leCtx.value, ssrStopCh))
      && (state.Leader? && runServerWithSnapshotter && backupSyncEnabled ==>
            backupGcStop > 0 && !channels[backupGcStop].closed)
      && NoLeaks(channels, state.Leader? && runServerWithSnapshotter && backupSyncEnabled, backupGcStop, mmStopCh)
      && (forall k :: 0 <= k < |closers| ==> CloserOk(closers[k], channels, contexts, live))
      && (forall j, k :: 0 <= j < k < |closers| ==> closers[j].channel != closers[k].channel)
    }

    constructor (withSnapshotter: bool, backupSync: bool, leaseRenewal: bool)
      ensures Valid() && currentState == Follower && calls == []
    {
      runServerWithSnapshotter, backupSyncEnabled := withSnapshotter, backupSync;
      memberLeaseRenewalEnabled := leaseRenewal;
      currentState, leCtx, contexts, live := Follower, None, 0, {};
      // the first lease renewal runs before the loop starts
      channels := [Channel(GcStop, false, 0), Channel(SsrStop, false, 0),
                   Channel(LeaseStop, false, if leaseRenewal then 1 else 0)];
      backupGcStop, ssrStopCh, mmStopCh := 0, 1, 2;
      closers, calls := [], [];
    }

    method MakeChannel(use: Use) returns (channel: nat)
      modifies `channels
      ensures channel == |old(channels)| && channels == old(channels) + [Channel(use, false, 0)]
    {
      channel := |channels|;
      channels := channels + [Channel(use, false, 0)];
    }

    /** Closing a closed channel would panic. */
    method CloseChannel(channel: nat)
      requires channel < |channels| && !channels[channel].closed
      modifies `channels
      ensures channels == old(channels)[channel := old(channels)[channel].(closed := true)]
    {
      channels := channels[channel := channels[channel].(closed := true)];
    }

    /** Sending on an unbuffered channel needs a receiver, and stops it. */
    method SendStop(channel: nat)
      requires channel < |channels| && !channels[channel].closed && channels[channel].receivers == 1
      modifies `channels
      ensures channels == old(channels)[channel := old(channels)[channel].(receivers := 0)]
    {
      channels := channels[channel := channels[channel].(receivers := 0)];
    }

    method OnStartedLeading()
      requires leCtx.Some?
      modifies `channels, `ssrStopCh, `backupGcStop, `closers, `calls
      ensures calls == old(calls) + [Started]
      ensures |old(channels)| <= |channels| && forall i :: 0 <= i < |old(channels)| ==> channels[i] == old(channels)[i]
      ensures if runServerWithSnapshotter
              then |closers| == |old(closers)| + 1 && closers[..|old(closers)|] == old(closers)
                   && closers[|old(closers)|] == Closer(leCtx.value, ssrStopCh, false)
              else closers == old(closers)
      ensures |old(channels)| <= ssrStopCh < |channels| && channels[ssrStopCh] == Channel(SsrStop, false, 0)
      ensures if runServerWithSnapshotter && backupSyncEnabled
              then |channels| == |old(channels)| + 2 && backupGcStop == |old(channels)| + 1
                   && channels[backupGcStop] == Channel(GcStop, false, 0)
              else |channels| == |old(channels)| + 1 && backupGcStop == old(backupGcStop)
      ensures ssrStopCh == |old(channels)|
    {
      calls := calls + [Started];
      ssrStopCh := MakeChannel(SsrStop);
      if runServerWithSnapshotter {
        if backupSyncEnabled {
          backupGcStop := MakeChannel(GcStop);
        }
        closers := closers + [Closer(leCtx.value, ssrStopCh, false)];
      }
    }

    method OnStoppedLeading()
      requires runServerWithSnapshotter && backupSyncEnabled ==>
                 backupGcStop < |channels| && !channels[backupGcStop].closed
      modifies `channels, `calls
      ensures calls == old(calls) + [Stopped]
      ensures channels == if runServerWithSnapshotter && backupSyncEnabled
                          then old(channels)[backupGcStop := old(channels)[backupGcStop].(closed := true)]
                          else old(channels)
    {
      calls := calls + [Stopped];
      if runServerWithSnapshotter && backupSyncEnabled {
        CloseChannel(backupGcStop);
      }
    }

    method StartLeaseRenewal()
      modifies `channels, `mmStopCh, `calls
      ensures calls == old(calls) + [StartRenewal]
      ensures mmStopCh == |old(channels)|
      ensures channels == old(channels) + [Channel(LeaseStop, false, if memberLeaseRenewalEnabled then 1 else 0)]
    {
      calls := calls + [StartRenewal];
      mmStopCh := MakeChannel(LeaseStop);
      if memberLeaseRenewalEnabled {
        channels := channels[mmStopCh := channels[mmStopCh].(receivers := 1)];
      }
    }

    method StopLeaseRenewal()
      requires memberLeaseRenewalEnabled ==>
                 mmStopCh < |channels| && !channels[mmStopCh].closed && channels[mmStopCh].receivers == 1
      modifies `channels, `calls
      ensures calls == old(calls) + [StopRenewal]
      ensures channels == if memberLeaseRenewalEnabled
                          then old(channels)[mmStopCh := old(channels)[mmStopCh].(receivers := 0)]
                          else old(channels)
    {
      calls := calls + [StopRenewal];
      if memberLeaseRenewalEnabled {
        SendStop(mmStopCh);
      }
    }

    method CancelLeading()
      requires leCtx.Some?
      modifies `live, `calls
      ensures live == old(live) - {leCtx.value}
      ensures calls == old(calls) + [Cancel]
    {
      live := live - {leCtx.value};
      calls := calls + [Cancel];
    }

    method StatusUnknown()
      requires Valid()
      modifies this
      ensures Valid()
      ensures currentState == Unknown
      ensures calls == old(calls) + Calls(old(currentState), Failed)
    {
      hide CloserOk, NoLeaks;
      if currentState.Unknown? {
        return;
      }
      if currentState.Leader? {
        LeaderUnknown();
      } else {
        FollowerUnknown();
      }
    }

    method FollowerUnknown()
      requires Valid() && currentState.Follower?
      modifies this
      ensures Valid()
      ensures currentState == Unknown
      ensures calls == old(calls) + [StopRenewal]
    {
      hide NewestCloser;
      StopLeaseRenewal();
      currentState := Unknown;
    }

    method LeaderUnknown()
      requires Valid() && currentState.Leader?
      modifies this
      ensures Valid()
      ensures currentState == Unknown
      ensures calls == old(calls) + [StopRenewal, Cancel, Stopped]
    {
      hide NewestCloser;
      StopLeaseRenewal();
      CancelLeading();
      OnStoppedLeading();
      currentState := Unknown;
    }

    method Elected()
      requires Valid() && !currentState.Leader?
      modifies this
      ensures Valid()
      ensures currentState == Leader
      ensures calls == old(calls) + (if old(currentState).Unknown? then [StartRenewal] else []) + [Started]
    {
      assert !currentState.Candidate?;
      hide ValidIn;
      if currentState.Unknown? {
        Renew();
      }
      Lead();
    }

    method Renew()
      requires ValidIn(Unknown)
      modifies `channels, `mmStopCh, `calls
      ensures ValidIn(Follower)
      ensures calls == old(calls) + [StartRenewal]
    {
      StartLeaseRenewal();
    }

    method Lead()
      requires ValidIn(Follower)
      modifies this
      ensures ValidIn(Leader)
      ensures currentState == Leader
      ensures calls == old(calls) + [Started]
    {
      ghost var before, created, alive := channels, contexts, live;
      currentState := Leader;
      leCtx, live, contexts := Some(contexts), live + {contexts}, contexts + 1;
      OnStartedLeading();
      assert runServerWithSnapshotter ==> CloserOk(closers[|closers| - 1], channels, contexts, live);
      hide CloserOk;
      forall k | 0 <= k < |old(closers)|
        ensures closers[k] == old(closers)[k] && CloserOk(closers[k], channels, contexts, live)
                && closers[k].channel < |before|
      {
        CloserLater(old(closers)[k], before, channels, created, alive);
      }
    }

    method LostElection()
      requires Valid() && currentState.Leader?
      modifies this
      ensures Valid()
      ensures currentState == Follower
      ensures calls == old(calls) + [Cancel, Stopped]
    {
      hide NewestCloser;
      currentState := Follower;
      CancelLeading();
      OnStoppedLeading();
    }

    /** One round of the election loop. */
    method HandleStatus(status: Status)
      requires Valid()
      modifies this
      ensures Valid()
      ensures currentState == Next(old(currentState), status)
      ensures calls == old(calls) + Calls(old(currentState), status)
    {
      hide CloserOk;
      match status
      case Failed =>
        StatusUnknown();
      case Member(isLeader, isLearner) =>
        if isLeader && !currentState.Leader? {
          Elected();
        } else if !isLeader && currentState.Leader? {
          LostElection();
        } else if !isLeader && currentState.Unknown? {
          RejoinAsFollower();
        } else if !isLeader && currentState.Follower? && isLearner {
          calls := calls + [Promote];
        }
    }

    method RejoinAsFollower()
      requires Valid() && currentState.Unknown?
      modifies this
      ensures Valid()
      ensures currentState == Follower
      ensures calls == old(calls) + [StartRenewal]
    {
      Renew();
      currentState := Follower;
    }

    /** A closer that runs: it waits for its context and closes its channel. */
    method HandleSsrStopRequest(k: nat)
      requires Valid()
      modifies `channels, `closers
      ensures Valid()
      ensures |closers| == |old(closers)|
      ensures k < |closers| ==> (closers[k].done <==> old(closers[k].done) || closers[k].context !in live)
      ensures forall j :: 0 <= j < |closers| && j != k ==> closers[j] == old(closers[j])
    {
      if k < |closers| && !closers[k].done && closers[k].context !in live {
        CloseChannel(closers[k].channel);
        closers := closers[k := closers[k].(done := true)];
      }
    }

    /** The loop over any results of the status check, with the closers running at any time,
        until the server is shut down. No channel is closed twice and every stop is received. */
    method Run(inputs: seq<Input>)
      requires Valid() && currentState == Follower && calls == []
      modifies this
      ensures var state := StateAfter(Statuses(inputs));
              && currentState == state
              && calls == CallsAfter(Statuses(inputs)) + (if leCtx.Some? then [Cancel] else [])
              && live == {}
              && NoLeaks(channels, state.Leader? && runServerWithSnapshotter && backupSyncEnabled, backupGcStop,
                         mmStopCh)
    {
      for i := 0 to |inputs|
        invariant Valid()
        invariant currentState == StateAfter(Statuses(inputs[..i]))
        invariant calls == CallsAfter(Statuses(inputs[..i]))
      {
        assert inputs[..i + 1][..i] == inputs[..i];
        match inputs[i]
        case Poll(status) =>
          ghost var before := Statuses(inputs[..i]);
          assert (before + [status])[..|before|] == before;
          HandleStatus(status);
        case RunCloser(k) =>
          HandleSsrStopRequest(k);
      }
      assert inputs[..|inputs|] == inputs;
      if leCtx.Some? {
        CancelLeading();
      }
    }
  }
}

/** The concurrent part of a restore: fetchers that finish in any order and one applier that
    puts the deltas back in order (applyDeltaSnapshots, fetchSnaps and applySnaps in
    pkg/snapshot/restorer/restorer.go). Every interleaving is a sequence of actions. */
module RestorePipeline {
  import opened Etcd
  import opened Restorer
  import opened SnapTypes

  /** The database after the first delta, the remaining deltas and the number of fetchers. */
  datatype Config = Config(start: Db, deltas: seq<Delta>, fetchers: nat)

  /** What a fetcher sends to the applier; `Abort` is the message with snap index -1. */
  datatype Message = Ready(index: nat) | Abort

  /** What is sent on errCh: nil or an error. */
  datatype Report = Nil | Failure

  datatype Fetcher =
    | Idle
    | Fetching(index: nat)
    | FetchReport(index: nat)      // about to send the fetch error
    | FetchAbort(index: nat)       // about to send the abort marker
    | Persisting(index: nat)
    | PersistReport(index: nat)
    | PersistAbort(index: nat)
    | Locating(index: nat)         // about to send the file location
    | Sending(index: nat)          // about to send the index to the applier
    | Exited
  {
    function Holds(): Option<nat> {
      if Idle? || Exited? then None else Some(index)
    }

    /** A failure has happened but its marker has not been sent yet. */
    predicate OwesAbort() {
      FetchReport? || FetchAbort? || PersistReport? || PersistAbort?
    }
  }

  datatype Applier = Waiting | Applying | Reporting(report: Report) | Returned
  {
    predicate Active() {
      Waiting? || Applying?
    }
  }

  /** Where the work item of an index is; this bookkeeping is not part of the program. */
  datatype Place = Unqueued | Queued | Held(fetcher: nat) | InChannel | Received | Dropped

  datatype State = State(
    sent: nat,
    queue: seq<nat>,               // fetcherInfoCh
    queueClosed: bool,
    fetchers: seq<Fetcher>,
    channel: seq<Message>,         // applierInfoCh
    locations: seq<nat>,           // snapLocationsCh
    pathList: seq<bool>,           // whether the path of an index is known
    nextSnapIndexToApply: nat,
    applier: Applier,
    db: Db,
    errCh: seq<Report>,
    result: Option<Report>,        // what the restore received from errCh
    stopped: bool,                 // stopCh closed
    place: seq<Place>,
    failed: set<nat>,              // indices whose fetch or persist failed
    unread: bool,                  // reading a fetched file has failed
    reports: seq<Report>,          // everything ever sent on errCh
    applied: seq<nat>)             // indices in the order they were applied

  datatype Action =
    | Enqueue
    | CloseQueue
    | Take(f: nat)
    | Fetch(f: nat, ok: bool)
    | Persist(f: nat, ok: bool)
    | Send(f: nat)                 // the next send of a fetcher, if there is room
    | Receive
    | Apply(readable: bool)
    | Report
    | StopApplier
    | MainReceive

  function Init(c: Config): State {
    State(0, [], false, seq(c.fetchers, _ => Idle), [], [], seq(|c.deltas|, _ => false), 0, Waiting, c.start, [], None,
          false, seq(|c.deltas|, _ => Unqueued), {}, false, [], [])
  }

  /** One step; a step that is not possible changes nothing. */
  function Step(c: Config, s: State, a: Action): State {
    match a
    case Enqueue => StepEnqueue(c, s)
    case CloseQueue => if s.sent == |c.deltas| then s.(queueClosed := true) else s
    case Take(f) => StepTake(s, f)
    case Fetch(f, ok) => StepFetch(s, f, ok)
    case Persist(f, ok) => StepPersist(s, f, ok)
    case Send(f) => StepSend(c, s, f)
    case Receive => StepReceive(s)
    case Apply(readable) => StepApply(c, s, readable)
    case Report => StepReport(c, s)
    case StopApplier => if s.applier.Waiting? && s.stopped then s.(applier := Returned) else s
    case MainReceive =>
      if s.queueClosed && s.result.None? && s.errCh != [] then
        s.(result := Some(s.errCh[0]), errCh := s.errCh[1..], stopped := true)
      else s
  }

  function StepEnqueue(c: Config, s: State): State {
    if s.sent < |c.deltas| && |s.queue| < |c.deltas| && s.sent < |s.place| then
      s.(queue := s.queue + [s.sent], sent := s.sent + 1, place := s.place[s.sent := Queued])
    else s
  }

  function StepTake(s: State, f: nat): State {
    if f < |s.fetchers| && s.fetchers[f].Idle? then
      if s.queue != [] && s.queue[0] < |s.place| then TakeIndex(s, f, s.queue[0])
      else if s.queue == [] && s.queueClosed then s.(fetchers := s.fetchers[f := Exited])
      else s
    else s
  }

  /** A fetcher that sees the stop channel closed drops what it took. */
  function TakeIndex(s: State, f: nat, i: nat): State
    requires f < |s.fetchers| && i < |s.place| && s.queue != []
  {
    s.(queue := s.queue[1..],
       fetchers := s.fetchers[f := if s.stopped then Exited else Fetching(i)],
       place := s.place[i := if s.stopped then Dropped else Held(f)])
  }

  function StepFetch(s: State, f: nat, ok: bool): State {
    if f < |s.fetchers| && s.fetchers[f].Fetching? then
      var i := s.fetchers[f].index;
      if ok then s.(fetchers := s.fetchers[f := Persisting(i)])
      else s.(fetchers := s.fetchers[f := FetchReport(i)], failed := s.failed + {i})
    else s
  }

  function StepPersist(s: State, f: nat, ok: bool): State {
    if f < |s.fetchers| && s.fetchers[f].Persisting? then
      var i := s.fetchers[f].index;
      if ok then s.(fetchers := s.fetchers[f := Locating(i)])
      else s.(fetchers := s.fetchers[f := PersistReport(i)], failed := s.failed + {i})
    else s
  }

  function StepSend(c: Config, s: State, f: nat): State {
    if f >= |s.fetchers| then s
    else match s.fetchers[f]
      case FetchReport(i) => SendError(c, s, f, FetchAbort(i))
      case PersistReport(i) => SendError(c, s, f, PersistAbort(i))
      case FetchAbort(i) => SendAbort(c, s, f, Persisting(i))
      case PersistAbort(i) => SendAbort(c, s, f, Locating(i))
      case Locating(i) => SendLocation(c, s, f, i)
      case Sending(i) => SendIndex(c, s, f, i)
      case _ => s
  }

  function SendLocation(c: Config, s: State, f: nat, i: nat): State
    requires f < |s.fetchers|
  {
    if |s.locations| < |c.deltas| then
      s.(locations := s.locations + [i], fetchers := s.fetchers[f := Sending(i)])
    else s
  }

  function SendIndex(c: Config, s: State, f: nat, i: nat): State
    requires f < |s.fetchers|
  {
    if |s.channel| < |c.deltas| && i < |s.place| then
      s.(channel := s.channel + [Ready(i)], fetchers := s.fetchers[f := Idle], place := s.place[i := InChannel])
    else s
  }

  function SendError(c: Config, s: State, f: nat, next: Fetcher): State
    requires f < |s.fetchers|
  {
    if |s.errCh| < c.fetchers + 1 then
      s.(errCh := s.errCh + [Failure], reports := s.reports + [Failure], fetchers := s.fetchers[f := next])
    else s
  }

  function SendAbort(c: Config, s: State, f: nat, next: Fetcher): State
    requires f < |s.fetchers|
  {
    if |s.channel| < |c.deltas| then s.(channel := s.channel + [Abort], fetchers := s.fetchers[f := next]) else s
  }

  function StepReceive(s: State): State {
    if s.applier.Waiting? && s.channel != [] then
      match s.channel[0]
      case Abort => s.(channel := s.channel[1..], applier := Returned)
      case Ready(i) => if i < |s.pathList| && i < |s.place| then Note(s, i) else s
    else s
  }

  function Note(s: State, i: nat): State
    requires s.channel != [] && i < |s.pathList| && i < |s.place|
  {
    var k := s.nextSnapIndexToApply;
    s.(channel := s.channel[1..], pathList := s.pathList[i := true], place := s.place[i := Received],
       applier := if i < k then Reporting(Failure) else if i == k then Applying else Waiting)
  }

  function StepApply(c: Config, s: State, readable: bool): State {
    var k := s.nextSnapIndexToApply;
    if s.applier.Applying? && k < |c.deltas| && k < |s.pathList| then
      if !s.pathList[k] then s.(applier := Waiting)
      else if !readable then s.(unread := true, applier := Reporting(Failure))
      else ApplyNext(c, s, ApplyAndVerify(s.db, c.deltas[k], false))
    else s
  }

  function ApplyNext(c: Config, s: State, r: Replayed): State {
    var k := s.nextSnapIndexToApply;
    s.(db := r.db,
       nextSnapIndexToApply := if r.ok then k + 1 else k,
       applied := if r.ok then s.applied + [k] else s.applied,
       applier := if !r.ok then Reporting(Failure) else if k + 1 == |c.deltas| then Reporting(Nil) else Applying)
  }

  function StepReport(c: Config, s: State): State {
    if s.applier.Reporting? && |s.errCh| < c.fetchers + 1 then
      s.(errCh := s.errCh + [s.applier.report], reports := s.reports + [s.applier.report], applier := Returned)
    else s
  }

  /** The state after a sequence of actions. */
  function Run(c: Config, actions: seq<Action>): State {
    if actions == [] then Init(c)
    else Step(c, Run(c, actions[..|actions| - 1]), actions[|actions| - 1])
  }
}

/** What every step of the restore pipeline keeps. */
module PipelineInvariant {
  import opened Restorer
  import opened SnapTypes
  import opened RestorePipeline

  /** The first `k` deltas applied one after the other. */
  function Applied(c: Config, k: nat): Replayed
    requires k <= |c.deltas|
  {
    if k == 0 then Replayed(c.start, true)
    else
      var before := Applied(c, k - 1);
      if !before.ok then before else ApplyAndVerify(before.db, c.deltas[k - 1], false)
  }

  ghost predicate Shape(c: Config, s: State) {
    && |s.place| == |s.pathList| == |c.deltas|
    && |s.fetchers| == c.fetchers
    && |s.queue| <= s.sent <= |c.deltas|
    && s.nextSnapIndexToApply <= |c.deltas|
    && (s.queueClosed ==> s.sent == |c.deltas|)
    && (s.stopped <==> s.result.Some?)
  }

  /** The queue is the interval of indices that were sent and not yet taken. */
  ghost predicate QueueInv(s: State) {
    && |s.queue| <= s.sent <= |s.place|
    && (forall j :: 0 <= j < |s.queue| ==> s.queue[j] == s.sent - |s.queue| + j)
    && (forall i :: 0 <= i < |s.place| ==> (s.place[i].Unqueued? <==> s.sent <= i))
    && (forall i :: 0 <= i < |s.place| ==> (s.place[i].Queued? <==> s.sent - |s.queue| <= i < s.sent))
    && (forall i :: 0 <= i < |s.place| && s.place[i].Dropped? ==> s.stopped)
    && (forall f :: 0 <= f < |s.fetchers| && s.fetchers[f].Exited? ==> s.stopped || (s.queueClosed && s.queue == []))
  }

  ghost predicate FetcherInv(s: State) {
    && (forall f :: 0 <= f < |s.fetchers| && s.fetchers[f].Holds().Some? ==>
                      s.fetchers[f].index < |s.place| && s.place[s.fetchers[f].index] == Held(f))
    && (forall i :: 0 <= i < |s.place| && s.place[i].Held? ==>
                      s.place[i].fetcher < |s.fetchers| && s.fetchers[s.place[i].fetcher].Holds() == Some(i))
  }

  /** Each index is in the channel at most once, and nowhere else at the same time. */
  ghost predicate ChannelInv(s: State) {
    && (forall p :: 0 <= p < |s.channel| && s.channel[p].Ready? ==>
                      s.channel[p].index < |s.place| && s.place[s.channel[p].index].InChannel?)
    && (forall p, q :: 0 <= p < q < |s.channel| && s.channel[p].Ready? ==> s.channel[p] != s.channel[q])
    && (forall i :: 0 <= i < |s.place| && s.place[i].InChannel? ==> Ready(i) in s.channel)
  }

  /** The file of index `i` has been announced for the cleanup. */
  predicate Located(s: State, i: nat)
    requires i < |s.place|
  {
    match s.place[i]
    case Held(f) => f < |s.fetchers| && s.fetchers[f].Sending?
    case InChannel => true
    case Received => true
    case _ => false
  }

  ghost predicate LocationInv(s: State) {
    && (forall p :: 0 <= p < |s.locations| ==> s.locations[p] < |s.place| && Located(s, s.locations[p]))
    && (forall p, q :: 0 <= p < q < |s.locations| ==> s.locations[p] != s.locations[q])
  }

  /** The applied snapshots are the prefix `0..k-1`, each applied once and in order, and the
      database is the one a sequential restore has after them. */
  ghost predicate OrderInv(c: Config, s: State) {
    var k := s.nextSnapIndexToApply;
    && k <= |c.deltas| == |s.pathList| == |s.place|
    && (forall i :: 0 <= i < |s.place| ==> (s.pathList[i] <==> s.place[i].Received?))
    && |s.applied| == k
    && (forall i :: 0 <= i < k ==> s.applied[i] == i && s.pathList[i])
    && (s.applier.Waiting? ==> |c.deltas| == 0 || (k < |c.deltas| && !s.pathList[k]))
    && (s.applier.Applying? ==> k < |c.deltas|)
    && (s.applier.Reporting? && s.applier.report.Nil? ==> k == |c.deltas|)
    && (s.applier.Active() || s.applier == Reporting(Nil) ==> Applied(c, k) == Replayed(s.db, true))
  }

  /** Something went wrong that a sequential restore would report as well. */
  ghost predicate Faulty(c: Config, s: State) {
    s.failed != {} || s.unread || !Applied(c, |c.deltas|).ok
  }

  /** nil is sent once, at the very end, and an error only for a reason. */
  ghost predicate ReportInv(c: Config, s: State) {
    && (Nil in s.reports ==>
          s.applier.Returned? && s.nextSnapIndexToApply == |c.deltas| && Applied(c, |c.deltas|) == Replayed(s.db, true))
    && (Failure in s.reports || s.applier == Reporting(Failure) ==> Faulty(c, s))
    && (forall i :: 0 <= i < |s.errCh| ==> s.errCh[i] in s.reports)
    && (s.result.Some? ==> s.result.value in s.reports)
  }

  ghost predicate AbortBefore(channel: seq<Message>, p: nat) {
    exists q :: 0 <= q < p && q < |channel| && channel[q].Abort?
  }

  /** After a failure the abort marker is ahead of the index in the channel, so an index that
      failed is never received while the applier is active. */
  ghost predicate FailureInv(s: State) {
    && (forall i :: i in s.failed ==>
                      i < |s.place| && !s.place[i].Received? && !s.place[i].Unqueued? && !s.place[i].Queued?)
    && (forall f :: 0 <= f < |s.fetchers| && s.fetchers[f].OwesAbort() ==> s.fetchers[f].index in s.failed)
    && (forall f :: (0 <= f < |s.fetchers| && s.fetchers[f].Holds().Some? && s.fetchers[f].index in s.failed
                     && !s.fetchers[f].OwesAbort() && s.applier.Active()) ==> AbortBefore(s.channel, |s.channel|))
    && (forall p :: (0 <= p < |s.channel| && s.channel[p].Ready? && s.channel[p].index in s.failed
                     && s.applier.Active()) ==>
                      AbortBefore(s.channel, p))
  }

  /** Without a failure only the applier reports, and only once. */
  ghost predicate QuietInv(s: State) {
    s.failed == {} ==>
      && !AbortBefore(s.channel, |s.channel|)
      && (if s.applier.Returned? then s.stopped || s.errCh != [] else s.reports == [])
      && |s.errCh| <= |s.reports| <= 1
  }

  ghost predicate Inv(c: Config, s: State) {
    Tokens(c, s) && Channels(s) && Outcome(c, s) && Failures(s)
  }

  ghost predicate Tokens(c: Config, s: State) {
    Shape(c, s) && QueueInv(s) && FetcherInv(s)
  }

  ghost predicate Channels(s: State) {
    ChannelInv(s) && LocationInv(s)
  }

  ghost predicate Outcome(c: Config, s: State) {
    OrderInv(c, s) && ReportInv(c, s)
  }

  ghost predicate Failures(s: State) {
    FailureInv(s) && QuietInv(s)
  }

  lemma AbortSnoc(channel: seq<Message>, m: Message)
    ensures AbortBefore(channel + [m], |channel| + 1) <==> AbortBefore(channel, |channel|) || m.Abort?
    ensures forall p: nat {:trigger AbortBefore(channel + [m], p)} :: p <= |channel| ==>
              (AbortBefore(channel + [m], p) <==> AbortBefore(channel, p))
  {
    var longer := channel + [m];
    assert longer[|channel|] == m;
    forall p: nat | p <= |channel|
      ensures AbortBefore(longer, p) <==> AbortBefore(channel, p)
    {
      if AbortBefore(channel, p) {
        var q :| 0 <= q < p && q < |channel| && channel[q].Abort?;
        assert longer[q] == channel[q];
      }
    }
    if AbortBefore(longer, |channel| + 1) && !m.Abort? {
      var q :| 0 <= q < |longer| && longer[q].Abort?;
      assert channel[q] == longer[q];
    }
    if AbortBefore(channel, |channel|) {
      var q :| 0 <= q < |channel| && channel[q].Abort?;
      assert longer[q] == channel[q];
    }
  }

  lemma AbortFirst(channel: seq<Message>)
    requires channel != []
    ensures !AbortBefore(channel, 0)
    ensures channel[0].Abort? ==> AbortBefore(channel, |channel|)
  {
  }

  lemma AbortRest(channel: seq<Message>)
    requires channel != [] && channel[0].Ready?
    ensures forall p: nat {:trigger AbortBefore(channel[1..], p)} ::
              AbortBefore(channel[1..], p) <==> AbortBefore(channel, p + 1)
  {
    var rest := channel[1..];
    forall p: nat
      ensures AbortBefore(rest, p) <==> AbortBefore(channel, p + 1)
    {
      if AbortBefore(rest, p) {
        var q :| 0 <= q < p && q < |rest| && rest[q].Abort?;
        assert channel[q + 1] == rest[q];
      }
      if AbortBefore(channel, p + 1) {
        var q :| 0 <= q < p + 1 && q < |channel| && channel[q].Abort?;
        assert rest[q - 1] == channel[q];
      }
    }
  }

  lemma {:induction false} AppliedStops(c: Config, k: nat, m: nat)
    requires k <= m <= |c.deltas| && !Applied(c, k).ok
    ensures !Applied(c, m).ok
  {
    hide ApplyAndVerify;
    if k < m { AppliedStops(c, k, m - 1); }
  }

  lemma AppliedNext(c: Config, k: nat)
    requires k < |c.deltas| && Applied(c, k).ok
    ensures Applied(c, k + 1) == ApplyAndVerify(Applied(c, k).db, c.deltas[k], false)
  {
  }

  lemma InitInv(c: Config)
    requires |c.deltas| > 0
    ensures Inv(c, Init(c))
  {
    hide ApplyAndVerify;
  }

  lemma EnqueueWork(c: Config, s: State)
    requires Inv(c, s)
    ensures var t := StepEnqueue(c, s); Tokens(c, t) && Channels(t)
  {
    hide Applied, ApplyAndVerify, OrderInv, ReportInv, FailureInv, QuietInv, AbortBefore;
  }

  lemma EnqueueResult(c: Config, s: State)
    requires Inv(c, s)
    ensures var t := StepEnqueue(c, s); Outcome(c, t) && Failures(t)
  {
    hide Applied, ApplyAndVerify, ChannelInv, LocationInv, AbortBefore;
  }

  lemma EnqueueKeeps(c: Config, s: State)
    requires Inv(c, s)
    ensures Inv(c, StepEnqueue(c, s))
  {
    hide Tokens, Channels, Outcome, Failures, Step, StepEnqueue;
    EnqueueWork(c, s);
    EnqueueResult(c, s);
  }

  lemma TakeWork(c: Config, s: State, f: nat, i: nat)
    requires Inv(c, s)
    requires f < |s.fetchers| && s.fetchers[f].Idle? && s.queue != [] && i == s.queue[0] && i < |s.place|
    ensures var t := TakeIndex(s, f, i); Tokens(c, t) && Channels(t)
  {
    hide Applied, ApplyAndVerify, OrderInv, ReportInv, FailureInv, QuietInv, AbortBefore;
  }

  lemma TakeResult(c: Config, s: State, f: nat, i: nat)
    requires Inv(c, s)
    requires f < |s.fetchers| && s.fetchers[f].Idle? && s.queue != [] && i == s.queue[0] && i < |s.place|
    ensures var t := TakeIndex(s, f, i); Outcome(c, t) && Failures(t)
  {
    hide Applied, ApplyAndVerify, ChannelInv, LocationInv, AbortBefore;
  }

  lemma TakeKeeps(c: Config, s: State, f: nat, i: nat)
    requires Inv(c, s)
    requires f < |s.fetchers| && s.fetchers[f].Idle? && s.queue != [] && i == s.queue[0] && i < |s.place|
    ensures Inv(c, TakeIndex(s, f, i))
  {
    hide Tokens, Channels, Outcome, Failures, Step, TakeIndex;
    TakeWork(c, s, f, i);
    TakeResult(c, s, f, i);
  }

  lemma FetchWork(c: Config, s: State, f: nat, ok: bool)
    requires Inv(c, s)
    ensures var t := StepFetch(s, f, ok); Tokens(c, t) && Channels(t)
  {
    hide Applied, ApplyAndVerify, OrderInv, ReportInv, FailureInv, QuietInv, AbortBefore;
  }

  lemma FetchOutcome(c: Config, s: State, f: nat, ok: bool)
    requires Inv(c, s)
    ensures var t := StepFetch(s, f, ok); Outcome(c, t)
  {
    hide Applied, ApplyAndVerify, QueueInv, FetcherInv, ChannelInv, LocationInv, FailureInv, QuietInv, AbortBefore;
  }

  lemma FetchFailures(c: Config, s: State, f: nat, ok: bool)
    requires Inv(c, s)
    ensures var t := StepFetch(s, f, ok); Failures(t)
  {
    hide Applied, ApplyAndVerify, QueueInv, LocationInv, OrderInv, ReportInv, AbortBefore;
  }

  lemma FetchKeeps(c: Config, s: State, f: nat, ok: bool)
    requires Inv(c, s)
    ensures Inv(c, StepFetch(s, f, ok))
  {
    hide Tokens, Channels, Outcome, Failures, Step, StepFetch;
    FetchWork(c, s, f, ok);
    FetchOutcome(c, s, f, ok);
    FetchFailures(c, s, f, ok);
  }

  lemma PersistWork(c: Config, s: State, f: nat, ok: bool)
    requires Inv(c, s)
    ensures var t := StepPersist(s, f, ok); Tokens(c, t) && Channels(t)
  {
    hide Applied, ApplyAndVerify, OrderInv, ReportInv, FailureInv, QuietInv, AbortBefore;
  }

  lemma PersistOutcome(c: Config, s: State, f: nat, ok: bool)
    requires Inv(c, s)
    ensures var t := StepPersist(s, f, ok); Outcome(c, t)
  {
    hide Applied, ApplyAndVerify, QueueInv, FetcherInv, ChannelInv, LocationInv, FailureInv, QuietInv, AbortBefore;
  }

  lemma PersistFailures(c: Config, s: State, f: nat, ok: bool)
    requires Inv(c, s)
    ensures var t := StepPersist(s, f, ok); Failures(t)
  {
    hide Applied, ApplyAndVerify, QueueInv, LocationInv, OrderInv, ReportInv, AbortBefore;
  }

  lemma PersistKeeps(c: Config, s: State, f: nat, ok: bool)
    requires Inv(c, s)
    ensures Inv(c, StepPersist(s, f, ok))
  {
    hide Tokens, Channels, Outcome, Failures, Step, StepPersist;
    PersistWork(c, s, f, ok);
    PersistOutcome(c, s, f, ok);
    PersistFailures(c, s, f, ok);
  }

  lemma ErrorWork(c: Config, s: State, f: nat, next: Fetcher)
    requires Inv(c, s)
    requires f < |s.fetchers| && s.fetchers[f].OwesAbort() && next.Holds() == s.fetchers[f].Holds()
    requires next.OwesAbort()
    ensures var t := SendError(c, s, f, next); Tokens(c, t) && Channels(t)
  {
    hide Applied, ApplyAndVerify, OrderInv, ReportInv, FailureInv, QuietInv, AbortBefore;
  }

  lemma ErrorResult(c: Config, s: State, f: nat, next: Fetcher)
    requires Inv(c, s)
    requires f < |s.fetchers| && s.fetchers[f].OwesAbort() && next.Holds() == s.fetchers[f].Holds()
    requires next.OwesAbort()
    ensures var t := SendError(c, s, f, next); Outcome(c, t) && Failures(t)
  {
    hide Applied, ApplyAndVerify, QueueInv, ChannelInv, LocationInv, AbortBefore;
  }

  lemma ErrorKeeps(c: Config, s: State, f: nat, next: Fetcher)
    requires Inv(c, s)
    requires f < |s.fetchers| && s.fetchers[f].OwesAbort() && next.Holds() == s.fetchers[f].Holds()
    requires next.OwesAbort()
    ensures Inv(c, SendError(c, s, f, next))
  {
    hide Tokens, Channels, Outcome, Failures, Step, SendError;
    ErrorWork(c, s, f, next);
    ErrorResult(c, s, f, next);
  }

  lemma AbortTokens(c: Config, s: State, f: nat, next: Fetcher)
    requires Inv(c, s)
    requires f < |s.fetchers| && s.fetchers[f].OwesAbort() && next.Holds() == s.fetchers[f].Holds()
    requires next.Persisting? || next.Locating?
    ensures var t := SendAbort(c, s, f, next); Tokens(c, t)
  {
    hide Applied, ApplyAndVerify, ChannelInv, LocationInv, OrderInv, ReportInv, FailureInv, QuietInv, AbortBefore;
  }

  lemma AbortChannels(c: Config, s: State, f: nat, next: Fetcher)
    requires Inv(c, s)
    requires f < |s.fetchers| && s.fetchers[f].OwesAbort() && next.Holds() == s.fetchers[f].Holds()
    requires next.Persisting? || next.Locating?
    ensures var t := SendAbort(c, s, f, next); Channels(t)
  {
    hide Applied, ApplyAndVerify, QueueInv, OrderInv, ReportInv, FailureInv, QuietInv, AbortBefore;
  }

  lemma AbortResult(c: Config, s: State, f: nat, next: Fetcher)
    requires Inv(c, s)
    requires f < |s.fetchers| && s.fetchers[f].OwesAbort() && next.Holds() == s.fetchers[f].Holds()
    requires next.Persisting? || next.Locating?
    ensures var t := SendAbort(c, s, f, next); Outcome(c, t) && Failures(t)
  {
    hide Applied, ApplyAndVerify, QueueInv, ChannelInv, LocationInv, AbortBefore;
    AbortSnoc(s.channel, Abort);
  }

  lemma AbortKeeps(c: Config, s: State, f: nat, next: Fetcher)
    requires Inv(c, s)
    requires f < |s.fetchers| && s.fetchers[f].OwesAbort() && next.Holds() == s.fetchers[f].Holds()
    requires next.Persisting? || next.Locating?
    ensures Inv(c, SendAbort(c, s, f, next))
  {
    hide Tokens, Channels, Outcome, Failures, Step, SendAbort;
    AbortTokens(c, s, f, next);
    AbortChannels(c, s, f, next);
    AbortResult(c, s, f, next);
  }

  lemma LocationTokens(c: Config, s: State, f: nat, i: nat)
    requires Inv(c, s)
    requires f < |s.fetchers| && s.fetchers[f] == Locating(i)
    ensures var t := SendLocation(c, s, f, i); Tokens(c, t)
  {
    hide Applied, ApplyAndVerify, ChannelInv, LocationInv, OrderInv, ReportInv, FailureInv, QuietInv, AbortBefore;
  }

  lemma LocationChannels(c: Config, s: State, f: nat, i: nat)
    requires Inv(c, s)
    requires f < |s.fetchers| && s.fetchers[f] == Locating(i)
    ensures var t := SendLocation(c, s, f, i); Channels(t)
  {
    hide Applied, ApplyAndVerify, QueueInv, OrderInv, ReportInv, FailureInv, QuietInv, AbortBefore;
  }

  lemma LocationResult(c: Config, s: State, f: nat, i: nat)
    requires Inv(c, s)
    requires f < |s.fetchers| && s.fetchers[f] == Locating(i)
    ensures var t := SendLocation(c, s, f, i); Outcome(c, t) && Failures(t)
  {
    hide Applied, ApplyAndVerify, QueueInv, ChannelInv, LocationInv, AbortBefore;
  }

  lemma LocationKeeps(c: Config, s: State, f: nat, i: nat)
    requires Inv(c, s)
    requires f < |s.fetchers| && s.fetchers[f] == Locating(i)
    ensures Inv(c, SendLocation(c, s, f, i))
  {
    hide Tokens, Channels, Outcome, Failures, Step, SendLocation;
    LocationTokens(c, s, f, i);
    LocationChannels(c, s, f, i);
    LocationResult(c, s, f, i);
  }

  lemma IndexTokens(c: Config, s: State, f: nat, i: nat)
    requires Inv(c, s)
    requires f < |s.fetchers| && s.fetchers[f] == Sending(i)
    ensures var t := SendIndex(c, s, f, i); Tokens(c, t)
  {
    hide Applied, ApplyAndVerify, ChannelInv, LocationInv, OrderInv, ReportInv, FailureInv, QuietInv, AbortBefore;
  }

  lemma IndexChannels(c: Config, s: State, f: nat, i: nat)
    requires Inv(c, s)
    requires f < |s.fetchers| && s.fetchers[f] == Sending(i)
    ensures var t := SendIndex(c, s, f, i); Channels(t)
  {
    hide Applied, ApplyAndVerify, QueueInv, OrderInv, ReportInv, FailureInv, QuietInv, AbortBefore;
  }

  lemma IndexResult(c: Config, s: State, f: nat, i: nat)
    requires Inv(c, s)
    requires f < |s.fetchers| && s.fetchers[f] == Sending(i)
    ensures var t := SendIndex(c, s, f, i); Outcome(c, t) && Failures(t)
  {
    hide Applied, ApplyAndVerify, QueueInv, ChannelInv, LocationInv, AbortBefore;
    AbortSnoc(s.channel, Ready(i));
  }

  lemma IndexKeeps(c: Config, s: State, f: nat, i: nat)
    requires Inv(c, s)
    requires f < |s.fetchers| && s.fetchers[f] == Sending(i)
    ensures Inv(c, SendIndex(c, s, f, i))
  {
    hide Tokens, Channels, Outcome, Failures, Step, SendIndex;
    IndexTokens(c, s, f, i);
    IndexChannels(c, s, f, i);
    IndexResult(c, s, f, i);
  }

  lemma NoteWork(c: Config, s: State, i: nat)
    requires Inv(c, s)
    requires s.applier.Waiting? && s.channel != [] && s.channel[0] == Ready(i) && i < |s.pathList| && i < |s.place|
    ensures var t := Note(s, i); Tokens(c, t) && Channels(t)
  {
    hide Applied, ApplyAndVerify, OrderInv, ReportInv, FailureInv, QuietInv, AbortBefore;
  }

  lemma NoteOutcome(c: Config, s: State, i: nat)
    requires Inv(c, s)
    requires s.applier.Waiting? && s.channel != [] && s.channel[0] == Ready(i) && i < |s.pathList| && i < |s.place|
    ensures var t := Note(s, i); Outcome(c, t)
  {
    hide Applied, ApplyAndVerify, QueueInv, FetcherInv, LocationInv, FailureInv, QuietInv, AbortBefore;
  }

  lemma NoteFailures(c: Config, s: State, i: nat)
    requires Inv(c, s)
    requires s.applier.Waiting? && s.channel != [] && s.channel[0] == Ready(i) && i < |s.pathList| && i < |s.place|
    ensures var t := Note(s, i); Failures(t)
  {
    hide Applied, ApplyAndVerify, QueueInv, LocationInv, OrderInv, ReportInv, AbortBefore;
    AbortFirst(s.channel);
    AbortRest(s.channel);
  }

  lemma NoteKeeps(c: Config, s: State, i: nat)
    requires Inv(c, s)
    requires s.applier.Waiting? && s.channel != [] && s.channel[0] == Ready(i) && i < |s.pathList| && i < |s.place|
    ensures Inv(c, Note(s, i))
  {
    hide Tokens, Channels, Outcome, Failures, Step, Note;
    NoteWork(c, s, i);
    NoteOutcome(c, s, i);
    NoteFailures(c, s, i);
  }

  lemma ApplyWork(c: Config, s: State)
    requires Inv(c, s)
    requires s.applier.Applying? && s.nextSnapIndexToApply < |c.deltas| == |s.pathList|
    requires s.pathList[s.nextSnapIndexToApply]
    ensures var t := ApplyNext(c, s, ApplyAndVerify(s.db, c.deltas[s.nextSnapIndexToApply], false));
            Tokens(c, t) && Channels(t)
  {
    hide Applied, ApplyAndVerify, OrderInv, ReportInv, FailureInv, QuietInv, AbortBefore;
  }

  lemma ApplyOrder(c: Config, s: State)
    requires Inv(c, s)
    requires s.applier.Applying? && s.nextSnapIndexToApply < |c.deltas| == |s.pathList|
    requires s.pathList[s.nextSnapIndexToApply]
    ensures var t := ApplyNext(c, s, ApplyAndVerify(s.db, c.deltas[s.nextSnapIndexToApply], false)); OrderInv(c, t)
  {
    hide Applied, ApplyAndVerify, QueueInv, FetcherInv, ChannelInv, LocationInv, ReportInv, FailureInv, QuietInv,
         AbortBefore;
    var k := s.nextSnapIndexToApply;
    AppliedNext(c, k);
  }

  lemma ApplyReport(c: Config, s: State)
    requires Inv(c, s)
    requires s.applier.Applying? && s.nextSnapIndexToApply < |c.deltas| == |s.pathList|
    requires s.pathList[s.nextSnapIndexToApply]
    ensures var t := ApplyNext(c, s, ApplyAndVerify(s.db, c.deltas[s.nextSnapIndexToApply], false)); ReportInv(c, t)
  {
    hide Applied, ApplyAndVerify, QueueInv, FetcherInv, ChannelInv, LocationInv, FailureInv, QuietInv, AbortBefore;
    var k := s.nextSnapIndexToApply;
    AppliedNext(c, k);
    if !Applied(c, k + 1).ok { AppliedStops(c, k + 1, |c.deltas|); }
  }

  lemma ApplyFailures(c: Config, s: State)
    requires Inv(c, s)
    requires s.applier.Applying? && s.nextSnapIndexToApply < |c.deltas| == |s.pathList|
    requires s.pathList[s.nextSnapIndexToApply]
    ensures var t := ApplyNext(c, s, ApplyAndVerify(s.db, c.deltas[s.nextSnapIndexToApply], false)); Failures(t)
  {
    hide Applied, ApplyAndVerify, QueueInv, ChannelInv, LocationInv, OrderInv, ReportInv, AbortBefore;
  }

  lemma ApplyKeeps(c: Config, s: State)
    requires Inv(c, s)
    requires s.applier.Applying? && s.nextSnapIndexToApply < |c.deltas| == |s.pathList|
    requires s.pathList[s.nextSnapIndexToApply]
    ensures Inv(c, ApplyNext(c, s, ApplyAndVerify(s.db, c.deltas[s.nextSnapIndexToApply], false)))
  {
    hide Tokens, Channels, OrderInv, ReportInv, Failures, Step, ApplyNext;
    ApplyWork(c, s);
    ApplyOrder(c, s);
    ApplyReport(c, s);
    ApplyFailures(c, s);
  }

  lemma OtherWork(c: Config, s: State, a: Action)
    requires Inv(c, s)
    requires a.CloseQueue? || a.Report? || a.StopApplier? || a.MainReceive?
    ensures var t := Step(c, s, a); Tokens(c, t) && Channels(t)
  {
    hide Applied, ApplyAndVerify, OrderInv, ReportInv, FailureInv, QuietInv, AbortBefore;
  }

  lemma OtherOutcome(c: Config, s: State, a: Action)
    requires Inv(c, s)
    requires a.CloseQueue? || a.Report? || a.StopApplier? || a.MainReceive?
    ensures var t := Step(c, s, a); Outcome(c, t)
  {
    hide Applied, ApplyAndVerify, QueueInv, FetcherInv, ChannelInv, LocationInv, FailureInv, QuietInv, AbortBefore;
  }

  lemma OtherFailures(c: Config, s: State, a: Action)
    requires Inv(c, s)
    requires a.CloseQueue? || a.Report? || a.StopApplier? || a.MainReceive?
    ensures var t := Step(c, s, a); Failures(t)
  {
    hide Applied, ApplyAndVerify, QueueInv, ChannelInv, LocationInv, OrderInv, ReportInv, AbortBefore;
  }

  lemma OtherKeeps(c: Config, s: State, a: Action)
    requires Inv(c, s)
    requires a.CloseQueue? || a.Report? || a.StopApplier? || a.MainReceive?
    ensures Inv(c, Step(c, s, a))
  {
    hide Tokens, Channels, Outcome, Failures, Step;
    OtherWork(c, s, a);
    OtherOutcome(c, s, a);
    OtherFailures(c, s, a);
  }

  lemma SendKeeps(c: Config, s: State, f: nat)
    requires Inv(c, s)
    ensures Inv(c, StepSend(c, s, f))
  {
    hide Inv, SendError, SendAbort, SendLocation, SendIndex;
    if f < |s.fetchers| {
      match s.fetchers[f]
      case FetchReport(i) => ErrorKeeps(c, s, f, FetchAbort(i));
      case PersistReport(i) => ErrorKeeps(c, s, f, PersistAbort(i));
      case FetchAbort(i) => AbortKeeps(c, s, f, Persisting(i));
      case PersistAbort(i) => AbortKeeps(c, s, f, Locating(i));
      case Locating(i) => LocationKeeps(c, s, f, i);
      case Sending(i) => IndexKeeps(c, s, f, i);
      case _ =>
    }
  }

  lemma ExitWork(c: Config, s: State, f: nat)
    requires Inv(c, s)
    requires f < |s.fetchers| && s.fetchers[f].Idle? && s.queue == [] && s.queueClosed
    ensures var t := s.(fetchers := s.fetchers[f := Exited]); Tokens(c, t) && Channels(t)
  {
    hide Outcome, Failures;
    var t := s.(fetchers := s.fetchers[f := Exited]);
    assert Tokens(c, t) by { hide Channels; }
    assert Channels(t) by { hide QueueInv; }
  }

  lemma ExitKeeps(c: Config, s: State, f: nat)
    requires Inv(c, s)
    requires f < |s.fetchers| && s.fetchers[f].Idle? && s.queue == [] && s.queueClosed
    ensures Inv(c, s.(fetchers := s.fetchers[f := Exited]))
  {
    hide Applied, ApplyAndVerify, AbortBefore, Tokens, Channels;
    ExitWork(c, s, f);
  }

  lemma TakeStepKeeps(c: Config, s: State, f: nat)
    requires Inv(c, s)
    ensures Inv(c, StepTake(s, f))
  {
    hide Inv, TakeIndex;
    if f < |s.fetchers| && s.fetchers[f].Idle? {
      if s.queue != [] && s.queue[0] < |s.place| {
        TakeKeeps(c, s, f, s.queue[0]);
      } else if s.queue == [] && s.queueClosed {
        ExitKeeps(c, s, f);
      }
    }
  }

  /** An abort marker ends the applier. */
  lemma QuitKeeps(c: Config, s: State)
    requires Inv(c, s)
    requires s.applier.Waiting? && s.channel != [] && s.channel[0].Abort?
    ensures Inv(c, s.(channel := s.channel[1..], applier := Returned))
  {
    hide Applied, ApplyAndVerify, AbortBefore;
    AbortFirst(s.channel);
  }

  lemma ReceiveStepKeeps(c: Config, s: State)
    requires Inv(c, s)
    ensures Inv(c, StepReceive(s))
  {
    hide Inv, Note;
    if s.applier.Waiting? && s.channel != [] {
      match s.channel[0]
      case Abort => QuitKeeps(c, s);
      case Ready(i) => if i < |s.pathList| && i < |s.place| { NoteKeeps(c, s, i); }
    }
  }

  lemma PauseKeeps(c: Config, s: State)
    requires Inv(c, s)
    requires s.applier.Applying? && s.nextSnapIndexToApply < |s.pathList| && !s.pathList[s.nextSnapIndexToApply]
    ensures Inv(c, s.(applier := Waiting))
  {
    hide Applied, ApplyAndVerify, AbortBefore;
  }

  lemma UnreadKeeps(c: Config, s: State)
    requires Inv(c, s)
    requires s.applier.Applying?
    ensures Inv(c, s.(unread := true, applier := Reporting(Failure)))
  {
    hide Applied, ApplyAndVerify, AbortBefore;
  }

  lemma ApplyStepKeeps(c: Config, s: State, readable: bool)
    requires Inv(c, s)
    ensures Inv(c, StepApply(c, s, readable))
  {
    hide Tokens, Channels, Failures, ReportInv, Applied, ApplyAndVerify, ApplyNext;
    var k := s.nextSnapIndexToApply;
    if s.applier.Applying? && k < |c.deltas| && k < |s.pathList| {
      if !s.pathList[k] {
        PauseKeeps(c, s);
      } else if !readable {
        UnreadKeeps(c, s);
      } else {
        ApplyKeeps(c, s);
      }
    }
  }

  lemma StepKeeps(c: Config, s: State, a: Action)
    requires Inv(c, s)
    ensures Inv(c, Step(c, s, a))
  {
    match a
    case Enqueue => hide Inv, StepEnqueue; EnqueueKeeps(c, s);
    case Take(f) => TakeStepKeeps(c, s, f);
    case Fetch(f, ok) => hide Inv, StepFetch; FetchKeeps(c, s, f, ok);
    case Persist(f, ok) => hide Inv, StepPersist; PersistKeeps(c, s, f, ok);
    case Send(f) => hide Inv, StepSend; SendKeeps(c, s, f);
    case Receive => ReceiveStepKeeps(c, s);
    case Apply(readable) => ApplyStepKeeps(c, s, readable);
    case _ => hide Inv; OtherKeeps(c, s, a);
  }

  /** Every state of every interleaving satisfies the invariant. */
  lemma {:induction false} RunKeeps(c: Config, actions: seq<Action>)
    requires |c.deltas| > 0
    ensures Inv(c, Run(c, actions))
  {
    hide Inv, Init, Step;
    if actions == [] {
      InitInv(c);
    } else {
      RunKeeps(c, actions[..|actions| - 1]);
      StepKeeps(c, Run(c, actions[..|actions| - 1]), actions[|actions| - 1]);
    }
  }
}

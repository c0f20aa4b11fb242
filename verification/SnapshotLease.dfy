/** Concurrent updates of the full snapshot lease by reading it and patching it with an
    optimistic lock (UpdateFullSnapshotLease in pkg/health/heartbeat/heartbeat.go). */
module SnapshotLease {

  /** The holder identity of the lease. */
  datatype Holder = Absent | Revision(rev: int) | Malformed

  datatype Phase =
    | Fetching
    | Patching(version: nat, seen: Holder)
    | ReturnedNil
    | ReturnedError

  datatype Updater = Updater(lastRevision: int, phase: Phase, retries: nat)

  datatype Lease = Lease(holder: Holder, version: nat, updaters: seq<Updater>)

  /** How the request of a patch goes: `Lost` applies the patch but reports an error. */
  datatype Reply = Normal | Refused | Lost

  datatype Action = Get(u: nat, ok: bool) | Patch(u: nat, reply: Reply)

  function Step(s: Lease, a: Action): Lease {
    if a.u >= |s.updaters| then s
    else match a
      case Get(u, ok) => if s.updaters[u].phase.Fetching? then SetPhase(s, u, AfterGet(s, u, ok)) else s
      case Patch(u, reply) => if s.updaters[u].phase.Patching? then StepPatch(s, u, reply) else s
  }

  function SetPhase(s: Lease, u: nat, phase: Phase): Lease
    requires u < |s.updaters|
  {
    s.(updaters := s.updaters[u := s.updaters[u].(phase := phase)])
  }

  function AfterGet(s: Lease, u: nat, ok: bool): Phase
    requires u < |s.updaters|
  {
    if !ok || s.holder.Malformed? then ReturnedError
    else if s.holder.Revision? && s.holder.rev > s.updaters[u].lastRevision then ReturnedNil
    else Patching(s.version, s.holder)
  }

  function StepPatch(s: Lease, u: nat, reply: Reply): Lease
    requires u < |s.updaters| && s.updaters[u].phase.Patching?
  {
    var me := s.updaters[u];
    if reply.Refused? then SetPhase(s, u, ReturnedError)
    else if me.phase.version != s.version then
      // a conflict: try again a bounded number of times
      if me.retries == 0 then SetPhase(s, u, ReturnedError)
      else s.(updaters := s.updaters[u := Updater(me.lastRevision, Fetching, me.retries - 1)])
    else
      var seen := me.phase.seen;
      var renewed := if seen.Absent? || (seen.Revision? && seen.rev < me.lastRevision)
                     then Revision(me.lastRevision) else seen;
      SetPhase(s.(holder := renewed, version := s.version + 1), u, if reply.Lost? then ReturnedError else ReturnedNil)
  }

  function Run(s: Lease, actions: seq<Action>): Lease {
    if actions == [] then s else Step(Run(s, actions[..|actions| - 1]), actions[|actions| - 1])
  }

  // ---------------------------------------------------------------------------
  // Properties
  // ---------------------------------------------------------------------------

  predicate AtLeast(holder: Holder, rev: int) {
    holder.Revision? && holder.rev >= rev
  }

  /** The order in which the stored value may move. */
  predicate NotBelow(after: Holder, before: Holder) {
    match before
    case Absent => true
    case Revision(rev) => AtLeast(after, rev)
    case Malformed => after.Malformed?
  }

  predicate UpdaterOk(s: Lease, u: Updater) {
    match u.phase
    case Patching(version, seen) =>
      && version <= s.version && (version == s.version ==> seen == s.holder)
      && !seen.Malformed? && (seen.Revision? ==> seen.rev <= u.lastRevision)
    case ReturnedNil => AtLeast(s.holder, u.lastRevision)
    case _ => true
  }

  ghost predicate Inv(s: Lease) {
    forall u :: 0 <= u < |s.updaters| ==> UpdaterOk(s, s.updaters[u])
  }

  /** Every updater is about to read the lease. */
  ghost predicate Initial(s: Lease) {
    forall u :: 0 <= u < |s.updaters| ==> s.updaters[u].phase.Fetching?
  }

  /** The value comes from the start or from one of the updaters. */
  ghost predicate FromSomebody(start: Lease, s: Lease) {
    || s.holder == start.holder
    || exists u :: 0 <= u < |start.updaters| && s.holder == Revision(start.updaters[u].lastRevision)
  }

  ghost predicate SameUpdaters(start: Lease, s: Lease) {
    && |s.updaters| == |start.updaters|
    && forall u :: 0 <= u < |s.updaters| ==> s.updaters[u].lastRevision == start.updaters[u].lastRevision
  }

  lemma StepKeeps(s: Lease, a: Action)
    requires Inv(s)
    ensures var t := Step(s, a);
            && Inv(t) && SameUpdaters(s, t) && NotBelow(t.holder, s.holder)
            && (|| t.holder == s.holder
                || exists u :: 0 <= u < |s.updaters| && t.holder == Revision(s.updaters[u].lastRevision))
            && forall u :: 0 <= u < |s.updaters| && s.updaters[u].phase.ReturnedNil? ==> t.updaters[u] == s.updaters[u]
  {
    if a.u < |s.updaters| { assert UpdaterOk(s, s.updaters[a.u]); }
  }

  lemma NotBelowTransitive(a: Holder, b: Holder, c: Holder)
    requires NotBelow(b, a) && NotBelow(c, b)
    ensures NotBelow(c, a)
  {
  }

  /** The stored revision never decreases, whoever updates it and whatever fails; and it always
      is the start value or the revision of one of the updaters. */
  lemma {:induction false} LeaseNeverDecreases(s: Lease, actions: seq<Action>)
    requires Inv(s)
    ensures var t := Run(s, actions);
            && Inv(t) && SameUpdaters(s, t) && NotBelow(t.holder, s.holder) && FromSomebody(s, t)
            && forall u :: 0 <= u < |s.updaters| && s.updaters[u].phase.ReturnedNil? ==> t.updaters[u] == s.updaters[u]
  {
    hide Step, Inv;
    if actions != [] {
      var before := Run(s, actions[..|actions| - 1]);
      LeaseNeverDecreases(s, actions[..|actions| - 1]);
      StepKeeps(before, actions[|actions| - 1]);
      NotBelowTransitive(s.holder, before.holder, Run(s, actions).holder);
    }
  }

  /** Once an updater for revision `r` has returned nil, the stored revision is at least `r`,
      then and after any further steps of anybody. */
  lemma LeaseIsMaxRegister(start: Lease, actions: seq<Action>, more: seq<Action>, u: nat)
    requires Initial(start) && u < |start.updaters|
    requires var t := Run(start, actions); u < |t.updaters| && t.updaters[u].phase.ReturnedNil?
    ensures AtLeast(Run(start, actions).holder, start.updaters[u].lastRevision)
    ensures AtLeast(Run(Run(start, actions), more).holder, start.updaters[u].lastRevision)
  {
    hide Run;
    LeaseNeverDecreases(start, actions);
    var t := Run(start, actions);
    assert UpdaterOk(t, t.updaters[u]);
    LeaseNeverDecreases(t, more);
  }

  /** An updater that nobody disturbs returns nil and leaves the greater of both revisions. It renews
      the lease unless the stored revision is greater than its own. */
  lemma UndisturbedUpdate(s: Lease, u: nat)
    requires u < |s.updaters| && s.updaters[u].phase.Fetching? && !s.holder.Malformed?
    ensures var r := s.updaters[u].lastRevision;
            var t := Run(s, [Get(u, true), Patch(u, Normal)]);
            && |t.updaters| == |s.updaters| && t.updaters[u].phase.ReturnedNil?
            && (if s.holder.Revision? && s.holder.rev > r then t.holder == s.holder && t.version == s.version
                else t.holder == Revision(r) && t.version == s.version + 1)
  {
    var actions := [Get(u, true), Patch(u, Normal)];
    assert actions[..1] == [Get(u, true)] && actions[..1][..0] == [];
    assert Run(s, actions[..1]) == Step(s, Get(u, true));
    UndisturbedSteps(s, u);
  }

  lemma UndisturbedSteps(s: Lease, u: nat)
    requires u < |s.updaters| && s.updaters[u].phase.Fetching? && !s.holder.Malformed?
    ensures var r := s.updaters[u].lastRevision;
            var t := Step(Step(s, Get(u, true)), Patch(u, Normal));
            && |t.updaters| == |s.updaters| && t.updaters[u].phase.ReturnedNil?
            && (if s.holder.Revision? && s.holder.rev > r then t.holder == s.holder && t.version == s.version
                else t.holder == Revision(r) && t.version == s.version + 1)
  {
  }

  // ---------------------------------------------------------------------------
  // When an updater fails
  // ---------------------------------------------------------------------------

  /** The action is a patch of `u` on a lease that somebody has patched since `u` read it. */
  predicate Conflict(s: Lease, a: Action, u: nat) {
    && a.Patch? && a.u == u < |s.updaters| && !a.reply.Refused?
    && s.updaters[u].phase.Patching? && s.updaters[u].phase.version != s.version
  }

  /** The action is a request of `u` that goes wrong: one that fails, one whose reply is lost, or
      one that reads a malformed holder. */
  predicate Fault(s: Lease, a: Action, u: nat) {
    && a.u == u < |s.updaters|
    && match a
       case Get(_, ok) => s.updaters[u].phase.Fetching? && (!ok || s.holder.Malformed?)
       case Patch(_, reply) =>
         s.updaters[u].phase.Patching? && !reply.Normal? && (reply.Lost? ==> s.updaters[u].phase.version == s.version)
  }

  function Conflicts(start: Lease, actions: seq<Action>, u: nat): nat {
    if actions == [] then 0
    else
      var init, last := actions[..|actions| - 1], actions[|actions| - 1];
      Conflicts(start, init, u) + if Conflict(Run(start, init), last, u) then 1 else 0
  }

  predicate Faulted(start: Lease, actions: seq<Action>, u: nat) {
    actions != []
    && var init, last := actions[..|actions| - 1], actions[|actions| - 1];
       Faulted(start, init, u) || Fault(Run(start, init), last, u)
  }

  /** How an updater that began with `retries` stands. */
  predicate Accounted(me: Updater, retries: nat, conflicts: nat, faulted: bool) {
    if me.phase.ReturnedError? then faulted != (conflicts == retries + 1) && conflicts <= retries + 1
    else !faulted && conflicts + me.retries == retries
  }

  lemma StepAccounted(s: Lease, a: Action, u: nat, retries: nat, conflicts: nat, faulted: bool)
    requires u < |s.updaters| && Accounted(s.updaters[u], retries, conflicts, faulted)
    ensures |Step(s, a).updaters| == |s.updaters|
    ensures Accounted(Step(s, a).updaters[u], retries, conflicts + (if Conflict(s, a, u) then 1 else 0),
                      faulted || Fault(s, a, u))
  {
  }

  lemma {:induction false} RunAccounted(start: Lease, actions: seq<Action>, u: nat)
    requires Initial(start) && u < |start.updaters|
    ensures |Run(start, actions).updaters| == |start.updaters|
    ensures Accounted(Run(start, actions).updaters[u], start.updaters[u].retries, Conflicts(start, actions, u),
                      Faulted(start, actions, u))
  {
    hide Step, Accounted, Conflict, Fault;
    if actions == [] {
      FetchingAccounted(start.updaters[u]);
    } else {
      var init, last := actions[..|actions| - 1], actions[|actions| - 1];
      RunAccounted(start, init, u);
      StepAccounted(Run(start, init), last, u, start.updaters[u].retries, Conflicts(start, init, u),
                    Faulted(start, init, u));
    }
  }

  lemma FetchingAccounted(me: Updater)
    requires me.phase.Fetching?
    ensures Accounted(me, me.retries, 0, false)
  {
  }

  /** In every run an updater has returned an error if and only if one of its requests went wrong
      or it met more conflicts than it had retries. */
  lemma ErrorsAreExplained(start: Lease, actions: seq<Action>, u: nat)
    requires Initial(start) && u < |start.updaters|
    ensures |Run(start, actions).updaters| == |start.updaters|
    ensures Run(start, actions).updaters[u].phase.ReturnedError? <==>
            Faulted(start, actions, u) || Conflicts(start, actions, u) > start.updaters[u].retries
  {
    hide Run, Conflicts, Faulted;
    RunAccounted(start, actions, u);
  }

  // ---------------------------------------------------------------------------
  // An updater that is left alone
  // ---------------------------------------------------------------------------

  /** What `u` does on its own from where it stands: a patch that is due, and if that conflicts, or
      none is due, reading and patching. */
  function Alone(u: nat): seq<Action> {
    [Patch(u, Normal), Get(u, true), Patch(u, Normal)]
  }

  lemma RunOne(s: Lease, a: Action)
    ensures Run(s, [a]) == Step(s, a)
  {
    assert [a][..0] == [];
  }

  lemma {:induction false} RunConcat(s: Lease, a: seq<Action>, b: seq<Action>)
    ensures Run(s, a + b) == Run(Run(s, a), b)
  {
    hide Step;
    if b == [] {
      assert a + b == a;
    } else {
      assert (a + b)[..|a + b| - 1] == a + b[..|b| - 1];
      RunConcat(s, a, b[..|b| - 1]);
    }
  }

  lemma RunAlone(s: Lease, u: nat)
    ensures Run(s, Alone(u)) == Step(Step(Step(s, Patch(u, Normal)), Get(u, true)), Patch(u, Normal))
  {
    hide Step, Run;
    assert Alone(u) == [Patch(u, Normal)] + ([Get(u, true)] + [Patch(u, Normal)]);
    RunConcat(s, [Patch(u, Normal)], [Get(u, true)] + [Patch(u, Normal)]);
    RunConcat(Step(s, Patch(u, Normal)), [Get(u, true)], [Patch(u, Normal)]);
    RunOne(s, Patch(u, Normal));
    RunOne(Step(s, Patch(u, Normal)), Get(u, true));
    RunOne(Step(Step(s, Patch(u, Normal)), Get(u, true)), Patch(u, Normal));
  }

  lemma AloneSteps(s: Lease, u: nat)
    requires Inv(s) && u < |s.updaters| && !s.updaters[u].phase.ReturnedError? && !s.holder.Malformed?
    ensures var t := Step(Step(Step(s, Patch(u, Normal)), Get(u, true)), Patch(u, Normal));
            && |t.updaters| == |s.updaters|
            && (t.updaters[u].phase.ReturnedNil? <==> !(Conflict(s, Patch(u, Normal), u) && s.updaters[u].retries == 0))
            && (t.updaters[u].phase.ReturnedNil? ==> AtLeast(t.holder, s.updaters[u].lastRevision))
  {
    assert UpdaterOk(s, s.updaters[u]);
  }

  /** Whatever the others did: an updater none of whose requests went wrong returns nil once it is
      left alone, with at least its revision stored, if and only if it has met no more conflicts than
      it had retries, counting the patch that is due. */
  lemma AloneSucceeds(start: Lease, actions: seq<Action>, u: nat)
    requires Initial(start) && u < |start.updaters| && !start.holder.Malformed? && !Faulted(start, actions, u)
    ensures var due := if Conflict(Run(start, actions), Patch(u, Normal), u) then 1 else 0;
            var t := Run(start, actions + Alone(u));
            && |t.updaters| == |start.updaters|
            && (t.updaters[u].phase.ReturnedNil? <==>
                  Conflicts(start, actions, u) + due <= start.updaters[u].retries)
            && (t.updaters[u].phase.ReturnedNil? ==> AtLeast(t.holder, start.updaters[u].lastRevision))
  {
    hide Run, Step, Conflicts, Faulted;
    LeaseNeverDecreases(start, actions);
    MalformedStays(start, actions);
    RunAccounted(start, actions, u);
    RunConcat(start, actions, Alone(u));
    RunAlone(Run(start, actions), u);
    var s := Run(start, actions);
    if s.updaters[u].phase.ReturnedError? { FailedStays(s, u); } else { AloneSteps(s, u); }
  }

  lemma FailedStays(s: Lease, u: nat)
    requires u < |s.updaters| && s.updaters[u].phase.ReturnedError?
    ensures Step(Step(Step(s, Patch(u, Normal)), Get(u, true)), Patch(u, Normal)) == s
  {
  }

  /** Nobody makes the holder malformed. */
  lemma MalformedStays(start: Lease, actions: seq<Action>)
    requires Initial(start) && !start.holder.Malformed?
    ensures !Run(start, actions).holder.Malformed?
  {
    LeaseNeverDecreases(start, actions);
  }

  // ---------------------------------------------------------------------------
  // Enough retries
  // ---------------------------------------------------------------------------

  predicate Returned(me: Updater) {
    me.phase.ReturnedNil? || me.phase.ReturnedError?
  }

  function ReturnedCount(updaters: seq<Updater>): nat {
    if updaters == [] then 0
    else ReturnedCount(updaters[..|updaters| - 1]) + if Returned(updaters[|updaters| - 1]) then 1 else 0
  }

  lemma {:induction false} CountUpdate(updaters: seq<Updater>, u: nat, me: Updater)
    requires u < |updaters|
    ensures ReturnedCount(updaters[u := me]) + (if Returned(updaters[u]) then 1 else 0)
         == ReturnedCount(updaters) + if Returned(me) then 1 else 0
  {
    var after, init := updaters[u := me], updaters[..|updaters| - 1];
    if u == |updaters| - 1 {
      assert after[..|after| - 1] == init;
    } else {
      assert after[..|after| - 1] == init[u := me];
      CountUpdate(init, u, me);
    }
  }

  lemma {:induction false} CountBelow(updaters: seq<Updater>, u: nat)
    requires u < |updaters| && !Returned(updaters[u])
    ensures ReturnedCount(updaters) < |updaters|
  {
    if u == |updaters| - 1 {
      CountAtMost(updaters[..u]);
    } else {
      CountBelow(updaters[..|updaters| - 1], u);
    }
  }

  lemma {:induction false} CountAtMost(updaters: seq<Updater>)
    ensures ReturnedCount(updaters) <= |updaters|
  {
    if updaters != [] { CountAtMost(updaters[..|updaters| - 1]); }
  }

  /** Each patch is the last thing its updater does. */
  predicate Charged(start: Lease, s: Lease) {
    s.version <= start.version + ReturnedCount(s.updaters)
  }

  lemma StepCharged(start: Lease, s: Lease, a: Action)
    requires Charged(start, s)
    ensures Charged(start, Step(s, a))
  {
    hide ReturnedCount;
    var t := Step(s, a);
    if a.u < |s.updaters| && t != s {
      CountUpdate(s.updaters, a.u, t.updaters[a.u]);
      assert t.updaters == s.updaters[a.u := t.updaters[a.u]];
    }
  }

  /** Each conflict of an updater is the patch of another one that came since the one before. */
  predicate Paid(s: Lease, from: nat, u: nat, conflicts: nat)
    requires u < |s.updaters|
  {
    && from + conflicts <= s.version
    && (s.updaters[u].phase.Patching? ==> from + conflicts <= s.updaters[u].phase.version <= s.version)
  }

  lemma StepPaid(s: Lease, a: Action, from: nat, u: nat, conflicts: nat)
    requires u < |s.updaters| && Paid(s, from, u, conflicts)
    ensures |Step(s, a).updaters| == |s.updaters|
    ensures Paid(Step(s, a), from, u, conflicts + if Conflict(s, a, u) then 1 else 0)
  {
  }

  lemma {:induction false} RunPaid(start: Lease, actions: seq<Action>, u: nat)
    requires Initial(start) && u < |start.updaters|
    ensures |Run(start, actions).updaters| == |start.updaters|
    ensures Paid(Run(start, actions), start.version, u, Conflicts(start, actions, u))
    ensures Charged(start, Run(start, actions))
  {
    hide Step, Conflict, ReturnedCount;
    if actions == [] {
      assert Paid(start, start.version, u, 0);
    } else {
      var init, last := actions[..|actions| - 1], actions[|actions| - 1];
      RunPaid(start, init, u);
      StepPaid(Run(start, init), last, start.version, u, Conflicts(start, init, u));
      StepCharged(start, Run(start, init), last);
    }
  }

  /** An updater meets at most one conflict for each of the others. */
  lemma {:induction false} ConflictsAreBounded(start: Lease, actions: seq<Action>, u: nat)
    requires Initial(start) && u < |start.updaters|
    ensures Conflicts(start, actions, u) < |start.updaters|
  {
    hide Step, ReturnedCount, Run;
    if actions != [] {
      var init, last := actions[..|actions| - 1], actions[|actions| - 1];
      ConflictsAreBounded(start, init, u);
      RunPaid(start, init, u);
      var s := Run(start, init);
      if Conflict(s, last, u) { CountBelow(s.updaters, u); }
    }
  }

  /** So with a retry for each of the others an updater fails only if a request goes wrong. */
  lemma EnoughRetries(start: Lease, actions: seq<Action>, u: nat)
    requires Initial(start) && u < |start.updaters| <= start.updaters[u].retries + 1
    ensures |Run(start, actions).updaters| == |start.updaters|
    ensures Run(start, actions).updaters[u].phase.ReturnedError? <==> Faulted(start, actions, u)
  {
    hide Run, Conflicts, Faulted;
    ErrorsAreExplained(start, actions, u);
    ConflictsAreBounded(start, actions, u);
  }
}

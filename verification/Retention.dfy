/** Which full snapshots the exponential policy retains
    (pkg/snapshot/snapshotter/garbagecollector.go). Times are Unix seconds in UTC. */
module Retention {

  const HOUR := 3600
  const DAY := 86400
  const WEEK := 604800

  // ---------------------------------------------------------------------------
  // The arithmetic of the policy
  // ---------------------------------------------------------------------------

  /** Integer division that truncates toward zero. */
  function Trunc(x: int, n: int): int
    requires n > 0
  {
    if x >= 0 then x / n else -(-x / n)
  }

  /** `a.Sub(b)`, which saturates at the largest and smallest duration. */
  function Elapsed(a: int, b: int): int {
    if a - b > 9223372036 then 9223372036 else if a - b < -9223372036 then -9223372036 else a - b
  }

  function HourOf(t: int): int {
    t % DAY / HOUR
  }

  function EndOfDay(now: int): int {
    now / DAY * DAY + DAY - 1
  }

  function Threshold(now: int, eod: int, created: int): (threshold: int)
    ensures 0 <= threshold <= 0x7fff_ffff
  {
    var delta := Elapsed(eod, created);
    if delta < DAY then (if HourOf(created) == HourOf(now) then 0 else 1)
    else if delta < 8 * DAY then 24
    else if delta < 35 * DAY then 24 * 7
    else 0x7fff_ffff
  }

  /** Whether `next` differs enough from the following snapshot `snap` to be kept. */
  predicate Changed(eod: int, threshold: nat, next: int, snap: int) {
    var older, newer := Elapsed(eod, next), Elapsed(eod, snap);
    var hourChange := Trunc(older, HOUR) - Trunc(newer, HOUR);
    var dayChange := Trunc(older, DAY) - Trunc(newer, DAY);
    var weekChange := Trunc(older, WEEK) - Trunc(newer, WEEK);
    || threshold == 0
    || Trunc(hourChange, threshold) != 0
    || Trunc(dayChange * 24, threshold) != 0
    || Trunc(weekChange * 24 * 7, threshold) != 0
  }

  /** The first snapshot of the weekly range shifts the end of day back by one day. */
  predicate StartsWeeks(eod: int, created: int) {
    8 * DAY <= Elapsed(eod, created) < 35 * DAY
  }

  // ---------------------------------------------------------------------------
  // Windows
  // ---------------------------------------------------------------------------

  datatype Window = CurrentHour | Hourly(hour: int) | Daily(day: int) | Weekly(week: int) | Expired

  function DaysAgo(now: int, t: int): int {
    now / DAY - t / DAY
  }

  function WindowOf(now: int, t: int): Window {
    var d := DaysAgo(now, t);
    if d <= 0 then (if HourOf(t) == HourOf(now) then CurrentHour else Hourly(HourOf(t)))
    else if d <= 7 then Daily(d)
    else if d <= 35 then Weekly((d - 1) / 7)
    else Expired
  }

  /** Creation times, oldest first, none in the future. */
  ghost predicate Times(now: int, ts: seq<int>) {
    && (forall i :: 0 <= i < |ts| ==> ts[i] <= now)
    && (forall i, j :: 0 <= i < j < |ts| ==> ts[i] <= ts[j])
  }

  /** Between 8 and 34 days old. */
  predicate WeeksOld(now: int, t: int) {
    8 <= DaysAgo(now, t) <= 34
  }

  /** Some snapshot other than the newest is weeks old, which is what makes the policy count in
      weeks. */
  predicate CountsWeeks(now: int, ts: seq<int>) {
    exists i :: 0 <= i < |ts| - 1 && WeeksOld(now, ts[i])
  }

  predicate NewestInWindow(now: int, ts: seq<int>)
    requires ts != []
  {
    forall i :: 1 <= i < |ts| ==> WindowOf(now, ts[i]) != WindowOf(now, ts[0])
  }

  /** Whether the oldest of these snapshots stays: it is the only one, or of the current hour,
      or the newest of a window that has not expired. The oldest day of the oldest week counts
      only if a newer snapshot makes the policy count in weeks. */
  predicate Retained(now: int, ts: seq<int>)
    requires ts != []
  {
    || |ts| == 1
    || WindowOf(now, ts[0]).CurrentHour?
    || (&& !WindowOf(now, ts[0]).Expired?
        && NewestInWindow(now, ts)
        && (DaysAgo(now, ts[0]) == 35 ==> CountsWeeks(now, ts)))
  }

  function Survivors(now: int, ts: seq<int>): seq<int> {
    if ts == [] then []
    else (if Retained(now, ts) then [ts[0]] else []) + Survivors(now, ts[1..])
  }

  // ---------------------------------------------------------------------------
  // The arithmetic decides by windows
  // ---------------------------------------------------------------------------

  /** The end of day while deltas are counted in days, or in weeks. */
  function Eod(now: int, weeks: bool): int {
    if weeks then EndOfDay(now) - DAY else EndOfDay(now)
  }

  lemma DayIsCounted(now: int, t: int)
    requires t <= now
    ensures EndOfDay(now) >= t
    ensures (EndOfDay(now) - t) / DAY == DaysAgo(now, t)
  {
  }

  lemma HourIsCounted(now: int, t: int)
    requires t <= now && DaysAgo(now, t) == 0
    ensures (EndOfDay(now) - t) / HOUR == 23 - HourOf(t)
  {
  }

  lemma ChangedToday(now: int, next: int, snap: int)
    requires next <= snap <= now && DaysAgo(now, next) == 0
    ensures Changed(EndOfDay(now), 1, next, snap) <==> HourOf(next) != HourOf(snap)
  {
    DayIsCounted(now, next);
    DayIsCounted(now, snap);
    HourIsCounted(now, next);
    HourIsCounted(now, snap);
  }

  /** A difference of a number of days, seen in hours, days and weeks. */
  lemma ChangedByDay(eod: int, next: int, snap: int)
    requires next <= snap <= eod && eod - next < 9 * DAY
    ensures Changed(eod, 24, next, snap) <==> (eod - next) / DAY != (eod - snap) / DAY
  {
    var a, b := eod - next, eod - snap;
    assert a / HOUR - b / HOUR >= 24 ==> a / DAY != b / DAY;
    assert a / WEEK != b / WEEK ==> a / DAY != b / DAY;
    assert a / DAY >= b / DAY && a / WEEK >= b / WEEK && a / HOUR >= b / HOUR;
  }

  lemma ChangedByWeek(eod: int, next: int, snap: int)
    requires next <= snap && WEEK <= eod - next < 35 * DAY && -DAY <= eod - snap
    ensures Changed(eod, 168, next, snap) <==> (eod - next) / WEEK != Trunc(eod - snap, WEEK)
  {
    var a, b := eod - next, eod - snap;
    if b < 0 {
      assert Trunc(b, WEEK) == 0;
    } else {
      assert a / HOUR - b / HOUR >= 168 ==> a / WEEK != b / WEEK;
      assert a / DAY - b / DAY >= 7 ==> a / WEEK != b / WEEK;
      assert a / DAY >= b / DAY && a / WEEK >= b / WEEK && a / HOUR >= b / HOUR;
    }
  }

  lemma NeverChangedEnough(eod: int, next: int, snap: int)
    requires next <= snap && -DAY <= eod - snap
    ensures !Changed(eod, 0x7fff_ffff, next, snap)
  {
    var a, b := Elapsed(eod, next), Elapsed(eod, snap);
    SmallChange(a, b, HOUR, 1);
    SmallChange(a, b, DAY, 24);
    SmallChange(a, b, WEEK, 168);
    hide Elapsed, Trunc;
    TruncToZero((Trunc(a, HOUR) - Trunc(b, HOUR)));
    TruncToZero((Trunc(a, DAY) - Trunc(b, DAY)) * 24);
    TruncToZero((Trunc(a, WEEK) - Trunc(b, WEEK)) * 24 * 7);
  }

  lemma TruncToZero(x: int)
    requires 0 <= x < 0x7fff_ffff
    ensures Trunc(x, 0x7fff_ffff) == 0
  {
  }

  lemma TruncBounds(x: int, unit: int)
    requires -DAY <= x <= 9223372036 && (unit == HOUR || unit == DAY || unit == WEEK)
    ensures -24 <= Trunc(x, unit) * (unit / HOUR) <= 2562047
  {
  }

  lemma TruncMonotone(a: int, b: int, unit: int)
    requires b <= a && (unit == HOUR || unit == DAY || unit == WEEK)
    ensures Trunc(b, unit) <= Trunc(a, unit)
  {
  }

  lemma SmallChange(a: int, b: int, unit: int, hours: int)
    requires -DAY <= b <= a <= 9223372036
    requires (unit == HOUR && hours == 1) || (unit == DAY && hours == 24) || (unit == WEEK && hours == 168)
    ensures 0 <= (Trunc(a, unit) - Trunc(b, unit)) * hours < 0x7fff_ffff
  {
    hide Trunc;
    TruncBounds(a, unit);
    TruncBounds(b, unit);
    TruncMonotone(a, b, unit);
  }

  /** A window is an interval of time. */
  lemma WindowIsInterval(now: int, a: int, b: int, c: int)
    requires a <= b <= c <= now && WindowOf(now, a) == WindowOf(now, c)
    ensures WindowOf(now, b) == WindowOf(now, a)
  {
  }

  /** So the newest of a window is the one whose successor is in another window. */
  lemma NewestBySuccessor(now: int, ts: seq<int>)
    requires Times(now, ts) && |ts| >= 2
    ensures NewestInWindow(now, ts) <==> WindowOf(now, ts[0]) != WindowOf(now, ts[1])
  {
    hide WindowOf;
    forall i | 1 <= i < |ts| && WindowOf(now, ts[i]) == WindowOf(now, ts[0])
      ensures WindowOf(now, ts[1]) == WindowOf(now, ts[0])
    {
      WindowIsInterval(now, ts[0], ts[1], ts[i]);
    }
  }

  lemma OlderByDays(now: int, a: int, b: int)
    requires a <= b
    ensures DaysAgo(now, a) >= DaysAgo(now, b)
  {
  }

  lemma CountsWeeksCons(now: int, ts: seq<int>)
    requires |ts| >= 2
    ensures CountsWeeks(now, ts) <==> WeeksOld(now, ts[0]) || CountsWeeks(now, ts[1..])
  {
    hide WeeksOld;
    forall i | 0 < i < |ts| - 1 && WeeksOld(now, ts[i]) ensures CountsWeeks(now, ts[1..]) {
      assert ts[1..][i - 1] == ts[i];
    }
    if i :| 0 <= i < |ts[1..]| - 1 && WeeksOld(now, ts[1..][i]) {
      assert ts[i + 1] == ts[1..][i];
    }
  }

  lemma WeeksAreOlder(now: int, ts: seq<int>)
    requires Times(now, ts) && |ts| >= 2 && CountsWeeks(now, ts[1..])
    ensures DaysAgo(now, ts[0]) >= DaysAgo(now, ts[1]) >= 8
  {
    hide DaysAgo;
    var i :| 0 <= i < |ts[1..]| - 1 && WeeksOld(now, ts[1..][i]);
    OlderByDays(now, ts[0], ts[1]);
    OlderByDays(now, ts[1], ts[i + 1]);
  }

  /** What the policy decides about `next` with its successor `snap`: whether it stays, and
      whether the following ones are counted in weeks. */
  function Decide(now: int, weeks: bool, next: int, snap: int): (r: (bool, bool)) {
    var eod := Eod(now, weeks);
    var weeks' := weeks || StartsWeeks(eod, next);
    (Changed(Eod(now, weeks'), Threshold(now, eod, next), next, snap), weeks')
  }

  predicate KeptBySuccessor(now: int, weeks: bool, next: int, snap: int) {
    var w := WindowOf(now, next);
    w.CurrentHour? || (!w.Expired? && w != WindowOf(now, snap) && (DaysAgo(now, next) == 35 ==> weeks))
  }

  lemma DecideRecent(now: int, next: int, snap: int)
    requires next <= snap <= now && DaysAgo(now, next) <= 7
    ensures Decide(now, false, next, snap) == (KeptBySuccessor(now, false, next, snap), false)
  {
    hide Changed;
    DayIsCounted(now, next);
    DayIsCounted(now, snap);
    if DaysAgo(now, next) == 0 {
      ChangedToday(now, next, snap);
      if HourOf(next) == HourOf(now) { ChangedAlways(EndOfDay(now), next, snap); }
    } else {
      ChangedByDay(EndOfDay(now), next, snap);
    }
  }

  lemma ChangedAlways(eod: int, next: int, snap: int)
    ensures Changed(eod, 0, next, snap)
  {
  }

  lemma DecideWeekly(now: int, weeks: bool, next: int, snap: int)
    requires next <= snap <= now && 8 <= DaysAgo(now, next) <= 35
    requires DaysAgo(now, next) == 35 ==> weeks
    requires DaysAgo(now, next) == 8 && weeks ==> DaysAgo(now, snap) == 8
    ensures Decide(now, weeks, next, snap) == (KeptBySuccessor(now, weeks, next, snap), true)
  {
    hide Changed;
    DayIsCounted(now, next);
    DayIsCounted(now, snap);
    var eod := Eod(now, true);
    var d, d' := DaysAgo(now, next), DaysAgo(now, snap);
    assert (eod - next) / DAY == d - 1 && (eod - next) / WEEK == (d - 1) / 7;
    if d == 8 && weeks {
      ChangedByDay(eod, next, snap);
    } else {
      ChangedByWeek(eod, next, snap);
      assert d' >= 8 ==> Trunc(eod - snap, WEEK) == (d' - 1) / 7;
      assert d' < 8 ==> Trunc(eod - snap, WEEK) == 0;
    }
  }

  lemma DecideOld(now: int, weeks: bool, next: int, snap: int)
    requires next <= snap <= now && DaysAgo(now, next) >= (if weeks then 36 else 35)
    ensures Decide(now, weeks, next, snap) == (KeptBySuccessor(now, weeks, next, snap), weeks)
  {
    hide Changed;
    DayIsCounted(now, next);
    DayIsCounted(now, snap);
    NeverChangedEnough(Eod(now, weeks), next, snap);
  }

  /** The hour, day and week changes and the shift of the end of day decide exactly by windows. */
  lemma DecideIsRetained(now: int, ts: seq<int>)
    requires Times(now, ts) && |ts| >= 2
    ensures Decide(now, CountsWeeks(now, ts[1..]), ts[0], ts[1]) == (Retained(now, ts), CountsWeeks(now, ts))
  {
    hide Decide, CountsWeeks, NewestInWindow;
    var weeks := CountsWeeks(now, ts[1..]);
    var d := DaysAgo(now, ts[0]);
    NewestBySuccessor(now, ts);
    CountsWeeksCons(now, ts);
    if weeks { WeeksAreOlder(now, ts); }
    if d <= 7 {
      DecideRecent(now, ts[0], ts[1]);
    } else if d <= 34 || (d == 35 && weeks) {
      DecideWeekly(now, weeks, ts[0], ts[1]);
    } else {
      DecideOld(now, weeks, ts[0], ts[1]);
    }
  }

  /** A pass that has skipped some snapshots may not have noticed that it should count in weeks.
      Even then it gives up nothing that a window retains, but for the oldest day of the oldest
      week. */
  lemma DecideLagging(now: int, weeks: bool, ts: seq<int>)
    requires Times(now, ts) && |ts| >= 2
    requires weeks ==> CountsWeeks(now, ts[1..])
    ensures var (keep, weeks') := Decide(now, weeks, ts[0], ts[1]);
            && (!keep ==> !Retained(now, ts) || DaysAgo(now, ts[0]) == 35)
            && (weeks' ==> CountsWeeks(now, ts))
  {
    hide Decide, CountsWeeks, NewestInWindow;
    if weeks == CountsWeeks(now, ts[1..]) {
      DecideIsRetained(now, ts);
    } else {
      NewestBySuccessor(now, ts);
      CountsWeeksCons(now, ts);
      WeeksAreOlder(now, ts);
      if DaysAgo(now, ts[0]) <= 34 {
        DecideWeekly(now, false, ts[0], ts[1]);
      } else {
        DecideOld(now, false, ts[0], ts[1]);
      }
    }
  }

  // ---------------------------------------------------------------------------
  // The survivors
  // ---------------------------------------------------------------------------

  /** With nothing in the three newer weeks, the policy deletes a snapshot of the oldest day of
      the oldest week although it is the newest of its window. */
  lemma OldestDayIsLost()
    ensures var now := 100 * DAY + 500;
            var ts := [now - 35 * DAY, now];
            && WindowOf(now, ts[0]) == Weekly(4)
            && NewestInWindow(now, ts)
            && !Decide(now, false, ts[0], ts[1]).0
            && Survivors(now, ts) == [now]
            && Survivors(now, [now - 35 * DAY, now - 20 * DAY, now]) == [now - 35 * DAY, now - 20 * DAY, now]
  {
    hide Decide;
    var now := 100 * DAY + 500;
    var ts := [now - 35 * DAY, now];
    DecideOld(now, false, ts[0], ts[1]);
    assert !CountsWeeks(now, ts);
    assert Survivors(now, [now]) == [now];
    assert ts[1..] == [now];
    var us := [now - 35 * DAY, now - 20 * DAY, now];
    assert WeeksOld(now, us[1]) && CountsWeeks(now, us);
    assert us[1..] == [now - 20 * DAY, now] && us[1..][1..] == [now];
    assert Retained(now, us) && Retained(now, us[1..]);
    assert Survivors(now, us[1..]) == [now - 20 * DAY] + [now];
  }

  lemma {:induction false} SurvivorsMembers(now: int, ts: seq<int>)
    ensures forall t :: t in Survivors(now, ts) ==> t in ts
    ensures ts != [] ==> Survivors(now, ts) != []
  {
    hide Retained;
    if ts != [] {
      assert ts == [ts[0]] + ts[1..];
      SurvivorsMembers(now, ts[1..]);
      if |ts| == 1 { OnlyIsRetained(now, ts); }
    }
  }

  lemma {:induction false} SurvivorsSubset(now: int, ts: seq<int>)
    requires Times(now, ts)
    ensures Times(now, Survivors(now, ts))
  {
    hide Retained;
    if ts != [] {
      var rest := Survivors(now, ts[1..]);
      SurvivorsSubset(now, ts[1..]);
      SurvivorsMembers(now, ts[1..]);
      forall i | 0 <= i < |rest| ensures ts[0] <= rest[i] {
        assert rest[i] in ts[1..];
      }
    }
  }

  lemma OnlyIsRetained(now: int, ts: seq<int>)
    requires |ts| == 1
    ensures Retained(now, ts)
  {
  }

  /** Some snapshot other than the newest is weeks old, and not in the window of the newest. */
  predicate CountsOtherWeeks(now: int, ts: seq<int>) {
    exists i :: 0 <= i < |ts| - 1 && WeeksOld(now, ts[i]) && WindowOf(now, ts[i]) != WindowOf(now, ts[|ts| - 1])
  }

  lemma CountsOtherWeeksCons(now: int, ts: seq<int>)
    requires |ts| >= 2
    ensures CountsOtherWeeks(now, ts) <==>
            || (WeeksOld(now, ts[0]) && WindowOf(now, ts[0]) != WindowOf(now, ts[|ts| - 1]))
            || CountsOtherWeeks(now, ts[1..])
  {
    hide WeeksOld, WindowOf;
    var us := ts[1..];
    assert us[|us| - 1] == ts[|ts| - 1];
    forall i | 0 < i < |ts| - 1 && WeeksOld(now, ts[i]) && WindowOf(now, ts[i]) != WindowOf(now, ts[|ts| - 1])
      ensures CountsOtherWeeks(now, us)
    {
      assert us[i - 1] == ts[i];
    }
    if i :| 0 <= i < |us| - 1 && WeeksOld(now, us[i]) && WindowOf(now, us[i]) != WindowOf(now, us[|us| - 1]) {
      assert ts[i + 1] == us[i];
    }
  }

  /** Of each week the newest snapshot stays, but it may be the newest of all. */
  lemma {:induction false} WeeksSurvive(now: int, ts: seq<int>)
    requires Times(now, ts) && ts != []
    ensures CountsWeeks(now, Survivors(now, ts)) <==> CountsOtherWeeks(now, ts)
  {
    hide Retained, WindowOf, WeeksOld, CountsWeeks, CountsOtherWeeks;
    if |ts| == 1 {
      OneCountsNoWeeks(now, ts);
    } else {
      var rest := Survivors(now, ts[1..]);
      WeeksSurvive(now, ts[1..]);
      SurvivorsMembers(now, ts[1..]);
      CountsOtherWeeksCons(now, ts);
      if Retained(now, ts) {
        assert Survivors(now, ts) == [ts[0]] + rest && ([ts[0]] + rest)[1..] == rest;
        CountsWeeksCons(now, [ts[0]] + rest);
        WeekRetained(now, ts);
      } else {
        assert Survivors(now, ts) == rest;
        if !CountsOtherWeeks(now, ts[1..]) { FirstWeekIsRetained(now, ts); }
      }
    }
  }

  lemma OneCountsNoWeeks(now: int, ts: seq<int>)
    requires |ts| == 1
    ensures !CountsWeeks(now, Survivors(now, ts)) && !CountsOtherWeeks(now, ts)
  {
    assert ts[1..] == [] && Survivors(now, []) == [];
  }

  lemma WeekRetained(now: int, ts: seq<int>)
    requires |ts| >= 2 && Retained(now, ts)
    ensures WeeksOld(now, ts[0]) ==> WindowOf(now, ts[0]) != WindowOf(now, ts[|ts| - 1])
  {
  }

  lemma FirstWeekIsRetained(now: int, ts: seq<int>)
    requires Times(now, ts) && |ts| >= 2 && !CountsOtherWeeks(now, ts[1..])
    ensures WeeksOld(now, ts[0]) && WindowOf(now, ts[0]) != WindowOf(now, ts[|ts| - 1]) ==> Retained(now, ts)
  {
    NewestBySuccessor(now, ts);
    var us := ts[1..];
    assert us[0] == ts[1] && us[|us| - 1] == ts[|ts| - 1];
    OlderByDays(now, ts[0], ts[1]);
  }

  /** A snapshot of the oldest day of the oldest week stays, but the ones that keep it do not. */
  predicate LosesFirst(now: int, ts: seq<int>)
    requires ts != []
  {
    DaysAgo(now, ts[0]) == 35 && |ts| > 1 && Retained(now, ts) && !CountsOtherWeeks(now, ts[1..])
  }

  predicate LosesWeek(now: int, ts: seq<int>) {
    exists k :: 0 <= k < |ts| && LosesFirst(now, ts[k..])
  }

  lemma LosesWeekCons(now: int, ts: seq<int>)
    requires ts != []
    ensures LosesWeek(now, ts) <==> LosesFirst(now, ts) || LosesWeek(now, ts[1..])
  {
    hide LosesFirst;
    assert ts[0..] == ts;
    forall k | 1 <= k < |ts| ensures ts[1..][k - 1..] == ts[k..] {
    }
    if k :| 1 <= k < |ts| && LosesFirst(now, ts[k..]) {
      assert LosesFirst(now, ts[1..][k - 1..]);
    }
    if k :| 0 <= k < |ts[1..]| && LosesFirst(now, ts[1..][k..]) {
      assert ts[1..][k..] == ts[k + 1..];
    }
  }

  /** With a full snapshot of the last week there is nothing to lose. */
  lemma RecentLosesNothing(now: int, ts: seq<int>)
    requires Times(now, ts) && ts != [] && DaysAgo(now, ts[|ts| - 1]) <= 7
    ensures !LosesWeek(now, ts)
  {
    hide LosesFirst, DaysAgo;
    forall k | 0 <= k < |ts| ensures !LosesFirst(now, ts[k..]) {
      RecentKeepsFirst(now, ts[k..]);
    }
  }

  lemma RecentKeepsFirst(now: int, ts: seq<int>)
    requires Times(now, ts) && ts != [] && DaysAgo(now, ts[|ts| - 1]) <= 7
    ensures !LosesFirst(now, ts)
  {
    hide DaysAgo, NewestInWindow;
    OldestDayWindow(now, ts[0]);
    if |ts| > 1 && DaysAgo(now, ts[0]) == 35 && CountsWeeks(now, ts) {
      var i :| 0 <= i < |ts| - 1 && WeeksOld(now, ts[i]);
      var us := ts[1..];
      assert us[i - 1] == ts[i] && us[|us| - 1] == ts[|ts| - 1];
      RecentWindow(now, ts[i], ts[|ts| - 1]);
      assert CountsOtherWeeks(now, us);
    }
  }

  lemma RecentWindow(now: int, t: int, newest: int)
    requires WeeksOld(now, t) && DaysAgo(now, newest) <= 7
    ensures WindowOf(now, t) != WindowOf(now, newest)
  {
  }

  /** A second pass at the same time deletes nothing, if and only if the oldest week does not
      depend on a snapshot that the first pass deletes. */
  lemma {:induction false} SurvivorsIdempotent(now: int, ts: seq<int>)
    requires Times(now, ts)
    ensures Survivors(now, Survivors(now, ts)) == Survivors(now, ts) <==> !LosesWeek(now, ts)
  {
    hide Retained, DaysAgo, LosesWeek, LosesFirst;
    if ts == [] {
      NothingIsLost(now);
    } else {
      var rest := Survivors(now, ts[1..]);
      SurvivorsIdempotent(now, ts[1..]);
      SurvivorsShorter(now, rest);
      LosesWeekCons(now, ts);
      if Retained(now, ts) {
        var all := [ts[0]] + rest;
        assert all[1..] == rest && Survivors(now, ts) == all;
        RetainedAgain(now, ts);
      } else {
        assert Survivors(now, ts) == rest;
        LosesOnlyRetained(now, ts);
      }
    }
  }

  lemma NothingIsLost(now: int)
    ensures !LosesWeek(now, []) && Survivors(now, []) == []
  {
  }

  lemma LosesOnlyRetained(now: int, ts: seq<int>)
    requires ts != [] && !Retained(now, ts)
    ensures !LosesFirst(now, ts)
  {
  }

  lemma RetainedAgain(now: int, ts: seq<int>)
    requires Times(now, ts) && ts != [] && Retained(now, ts)
    ensures Retained(now, [ts[0]] + Survivors(now, ts[1..])) <==> !LosesFirst(now, ts)
  {
    hide DaysAgo, WindowOf, Survivors, CountsWeeks, CountsOtherWeeks, WeeksOld;
    var rest := Survivors(now, ts[1..]);
    var all := [ts[0]] + rest;
    SurvivorsMembers(now, ts[1..]);
    if |ts| == 1 {
      NoSurvivorsOfNothing(now);
      assert ts[1..] == [];
    } else {
      assert all[1..] == rest;
      OldestDayWindow(now, ts[0]);
      CountsWeeksCons(now, all);
      WeeksSurvive(now, ts[1..]);
      if !WindowOf(now, ts[0]).CurrentHour? {
        forall i | 1 <= i < |all| ensures WindowOf(now, all[i]) != WindowOf(now, ts[0]) {
          assert all[i] == rest[i - 1] && rest[i - 1] in ts[1..];
          var j :| 0 <= j < |ts[1..]| && ts[1..][j] == rest[i - 1];
          assert ts[j + 1] == all[i];
        }
      }
    }
  }

  lemma OldestDayWindow(now: int, t: int)
    ensures DaysAgo(now, t) == 35 ==> WindowOf(now, t) == Weekly(4) && !WeeksOld(now, t)
  {
  }

  /** For example, with no full snapshot for 20 days the newest keeps nothing else of its week, and
      the second pass deletes what the first one kept. */
  lemma SecondPassLosesWeek()
    ensures var now := 100 * DAY + 500;
            var ts := [now - 35 * DAY, now - 20 * DAY, now - 20 * DAY];
            && Survivors(now, ts) == [now - 35 * DAY, now - 20 * DAY]
            && Survivors(now, Survivors(now, ts)) == [now - 20 * DAY]
  {
    var now := 100 * DAY + 500;
    var a, b := now - 35 * DAY, now - 20 * DAY;
    var ts := [a, b, b];
    assert ts[1..] == [b, b] && [b, b][1..] == [b] && [a, b][1..] == [b] && [b][1..] == [];
    assert Survivors(now, [b]) == [b];
    assert Survivors(now, [b, b]) == [b];
    assert WeeksOld(now, ts[1]) && CountsWeeks(now, ts);
    assert Retained(now, ts) && !Retained(now, [a, b]);
  }

  lemma NoSurvivorsOfNothing(now: int)
    ensures Survivors(now, []) == []
  {
  }

  /** The snapshots kept beside the newest one and those of the current hour. */
  function Archived(now: int, ts: seq<int>): seq<int> {
    if |ts| <= 1 then []
    else (if WindowOf(now, ts[0]).CurrentHour? then [] else [ts[0]]) + Archived(now, ts[1..])
  }

  /** How many windows there are up to the one of `t`, newest first. */
  function Windows(now: int, t: int): int {
    match WindowOf(now, t)
    case CurrentHour => 0
    case Hourly(h) => 23 - h
    case Daily(d) => 23 + d
    case Weekly(w) => 30 + w
    case Expired => 34
  }

  lemma WindowsGrow(now: int, a: int, b: int)
    requires a <= b <= now
    ensures 0 <= Windows(now, b) <= Windows(now, a) <= 34
    ensures WindowOf(now, a) != WindowOf(now, b) && !WindowOf(now, a).Expired? ==> Windows(now, b) < Windows(now, a)
  {
  }

  lemma {:induction false} SurvivorsShorter(now: int, ts: seq<int>)
    ensures |Survivors(now, ts)| <= |ts|
  {
    hide Retained;
    if ts != [] { SurvivorsShorter(now, ts[1..]); }
  }

  /** At most 23 hourly, 7 daily and 4 weekly snapshots stay beside the newest one and those of
      the current hour. */
  lemma {:induction false} AtMost34(now: int, ts: seq<int>)
    requires Times(now, ts) && ts != []
    ensures |Archived(now, Survivors(now, ts))| <= Windows(now, ts[0]) <= 34
  {
    hide WindowOf, Windows;
    WindowsGrow(now, ts[0], ts[0]);
    if |ts| == 1 {
      SurvivorsShorter(now, ts);
    } else {
      var rest := Survivors(now, ts[1..]);
      AtMost34(now, ts[1..]);
      SurvivorsMembers(now, ts[1..]);
      WindowsGrow(now, ts[0], ts[1]);
      if Retained(now, ts) {
        assert Survivors(now, ts) == [ts[0]] + rest && ([ts[0]] + rest)[1..] == rest;
      } else {
        assert Survivors(now, ts) == rest;
      }
    }
  }
}

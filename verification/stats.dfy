/** The statistics engine: pure counts over a snapshot of the tasks. The
    current instant and the local period starts (`startOfDay`, `startOfWeek`,
    `startOfMonth` of `new Date()`) and the local hour of an instant
    (`getHours`) are inputs. */
module Stats {
  import opened Types
  import opened Seqs

  const MsPerMinute: int := 60_000
  const MsPerHour: int := 3_600_000
  const MsPerDay: int := 86_400_000

  /** Gaps between snapshots of eight hours (480 minutes) or more are not
      counted as switches. */
  const SwitchCapMinutes: int := 480

  /** A local hour of the day, as `Date.prototype.getHours` returns it. */
  type Hour = h: int | 0 <= h < 24

  datatype Clock = Clock(now: Time, todayStart: Time, weekStart: Time, monthStart: Time)

  /** What `startOfDay`, `startOfWeek` and `startOfMonth` of the same instant
      guarantee: the week and the month start no later than the day. */
  predicate ValidClock(c: Clock) {
    c.weekStart <= c.todayStart <= c.now && c.monthStart <= c.todayStart
  }

  /** The whole number of `unit`s in `d`, rounded toward zero as date-fns'
      `differenceInMinutes` and `differenceInHours` do (Dafny's own `/`
      rounds a negative quotient down instead). */
  function TruncDiv(d: int, unit: int): int
    requires unit > 0
  {
    if d >= 0 then d / unit else -((-d) / unit)
  }

  /** The truncated quotient brackets `d` from the side of zero: it is the
      largest multiple of `unit` not above a non-negative `d`, and the
      smallest one not below a negative `d`. */
  lemma TruncDivBounds(d: int, unit: int)
    requires unit > 0
    ensures var q := TruncDiv(d, unit);
      && (d >= 0 ==> q >= 0 && q * unit <= d < q * unit + unit)
      && (d < 0 ==> q <= 0 && q * unit - unit < d <= q * unit)
  {
    if d >= 0 {
      DivBounds(d, unit);
    } else {
      DivBounds(-d, unit);
      var p := (-d) / unit;
      assert (-p) * unit == -(p * unit);
    }
  }

  /** Euclidean division of a natural number brackets it. */
  lemma DivBounds(n: nat, unit: int)
    requires unit > 0
    ensures n / unit >= 0 && (n / unit) * unit <= n < (n / unit) * unit + unit
  {
    assert n == (n / unit) * unit + n % unit;
  }

  /** Bracketing by multiples of `unit` determines the quotient. */
  lemma DivUnique(n: int, unit: int, i: int)
    requires unit > 0 && n >= 0
    ensures (i * unit <= n < i * unit + unit) <==> n / unit == i
  {
    DivBounds(n, unit);
    var q := n / unit;
    if i * unit <= n < i * unit + unit {
      if q > i {
        MulMonotone(i + 1, q, unit);
      } else if q < i {
        MulMonotone(q + 1, i, unit);
      }
    }
  }

  lemma MulMonotone(a: int, b: int, unit: int)
    requires a <= b && unit > 0
    ensures a * unit <= b * unit
  {
    assert b * unit - a * unit == (b - a) * unit;
  }

  /** `differenceInMinutes(later, earlier)`. */
  function MinutesBetween(later: Time, earlier: Time): int {
    TruncDiv(later - earlier, MsPerMinute)
  }

  /** `differenceInHours(later, earlier)`. */
  function HoursBetween(later: Time, earlier: Time): int {
    TruncDiv(later - earlier, MsPerHour)
  }

  // ---------------------------------------------------------------------
  // Completions and interruptions per period

  /** `t.status === 'completed' && t.lastModified >= start`. */
  predicate IsCompletedSince(t: Task, start: Time) {
    t.status == Completed && t.lastModified >= start
  }

  function CompletedSince(start: Time): Task -> bool {
    (t: Task) => IsCompletedSince(t, start)
  }

  function CountCompletedSince(ts: seq<Task>, start: Time): nat {
    |Filter(CompletedSince(start), ts)|
  }

  /** A later period start never counts more completions. */
  lemma {:induction false} CompletedSinceMonotone(ts: seq<Task>, early: Time, late: Time)
    requires early <= late
    ensures CountCompletedSince(ts, late) <= CountCompletedSince(ts, early)
  {
    if ts != [] {
      CompletedSinceMonotone(ts[..|ts| - 1], early, late);
    }
  }

  /** `t.status === 'paused' && t.lastModified >= todayStart`. */
  function PausedSince(start: Time): Task -> bool {
    (t: Task) => t.status == Paused && t.lastModified >= start
  }

  /** `interruptionCount`: the tasks paused, or last touched while paused,
      since the start of the day. */
  function InterruptionCount(ts: seq<Task>, todayStart: Time): (r: nat)
    ensures r <= |ts|
    ensures forall t :: t in ts && t.status == Paused && t.lastModified >= todayStart ==> r > 0
    ensures r > 0 ==> exists t :: t in ts && t.status == Paused && t.lastModified >= todayStart
  {
    var f := Filter(PausedSince(todayStart), ts);
    assert |f| > 0 ==> f[0] in f;
    |f|
  }

  /** Completions and interruptions on one task set never overlap: together
      they count at most the whole collection. */
  lemma {:induction false} CompletedAndPausedDisjoint(ts: seq<Task>, start: Time)
    ensures CountCompletedSince(ts, start) + InterruptionCount(ts, start) <= |ts|
  {
    if ts != [] {
      CompletedAndPausedDisjoint(ts[..|ts| - 1], start);
    }
  }

  // ---------------------------------------------------------------------
  // Context switches

  /** The gaps in whole minutes between consecutive snapshots of one task
      that count as switches: strictly positive and under the cap. */
  function ContextGaps(cs: seq<Context>): (g: seq<int>)
    ensures forall i :: 0 <= i < |g| ==> 0 < g[i] < SwitchCapMinutes
    ensures cs != [] ==> |g| < |cs|
  {
    if |cs| < 2 then []
    else
      var m := MinutesBetween(cs[|cs| - 1].timestamp, cs[|cs| - 2].timestamp);
      ContextGaps(cs[..|cs| - 1]) + (if 0 < m < SwitchCapMinutes then [m] else [])
  }

  /** The counted gaps of every task, task by task. */
  function SwitchGaps(ts: seq<Task>): (g: seq<int>)
    ensures forall i :: 0 <= i < |g| ==> 0 < g[i] < SwitchCapMinutes
  {
    if ts == [] then [] else SwitchGaps(ts[..|ts| - 1]) + ContextGaps(ts[|ts| - 1].contexts)
  }

  /** The inner loop over one task's snapshots. */
  method TaskSwitchTotals(cs: seq<Context>) returns (total: int, count: nat)
    ensures total == Sum(ContextGaps(cs)) && count == |ContextGaps(cs)|
  {
    total, count := 0, 0;
    if |cs| < 2 {
      return;
    }
    var j := 1;
    assert cs[..1] == [cs[0]];
    while j < |cs|
      invariant 1 <= j <= |cs|
      invariant total == Sum(ContextGaps(cs[..j])) && count == |ContextGaps(cs[..j])|
    {
      var m := MinutesBetween(cs[j].timestamp, cs[j - 1].timestamp);
      TotalsStep(cs, j, m);
      if 0 < m && m < SwitchCapMinutes {
        total, count := total + m, count + 1;
      }
      j := j + 1;
    }
    assert cs[..j] == cs;
  }

  /** The running totals after snapshot `j`: its gap is added when counted. */
  lemma TotalsStep(cs: seq<Context>, j: nat, m: int)
    requires 1 <= j < |cs| && m == MinutesBetween(cs[j].timestamp, cs[j - 1].timestamp)
    ensures var before, after := ContextGaps(cs[..j]), ContextGaps(cs[..j + 1]);
      && Sum(after) == Sum(before) + (if 0 < m < SwitchCapMinutes then m else 0)
      && |after| == |before| + (if 0 < m < SwitchCapMinutes then 1 else 0)
  {
    var extra := if 0 < m < SwitchCapMinutes then [m] else [];
    ContextGapsStep(cs, j);
    SumAppend(ContextGaps(cs[..j]), extra);
    assert Sum(extra) == if 0 < m < SwitchCapMinutes then m else 0 by {
      if extra != [] {
        assert extra[..0] == [];
      }
    }
  }

  /** Extending the history by snapshot `j` adds its gap to `j - 1`, if counted. */
  lemma ContextGapsStep(cs: seq<Context>, j: nat)
    requires 1 <= j < |cs|
    ensures var m := MinutesBetween(cs[j].timestamp, cs[j - 1].timestamp);
      ContextGaps(cs[..j + 1]) == ContextGaps(cs[..j]) + (if 0 < m < SwitchCapMinutes then [m] else [])
  {
    var next := cs[..j + 1];
    assert next[..|next| - 1] == cs[..j];
  }

  /** The nested loop accumulating `totalSwitchTime` and `switchCount`. */
  method SwitchTotals(ts: seq<Task>) returns (total: int, count: nat)
    ensures total == Sum(SwitchGaps(ts)) && count == |SwitchGaps(ts)|
  {
    total, count := 0, 0;
    var k := 0;
    while k < |ts|
      invariant 0 <= k <= |ts|
      invariant total == Sum(SwitchGaps(ts[..k])) && count == |SwitchGaps(ts[..k])|
    {
      var t, c := TaskSwitchTotals(ts[k].contexts);
      assert ts[..k + 1][..k] == ts[..k];
      SumAppend(SwitchGaps(ts[..k]), ContextGaps(ts[k].contexts));
      total, count := total + t, count + c;
      k := k + 1;
    }
    assert ts[..k] == ts;
  }

  /** `switchCount > 0 ? totalSwitchTime / switchCount : 0`. */
  function Average(total: int, count: nat): real {
    if count > 0 then total as real / count as real else 0.0
  }

  /** The average switch time is 0 when no gap counts, and otherwise lies
      between 1 and 479 minutes. */
  lemma AverageSwitchBounds(ts: seq<Task>)
    ensures var g := SwitchGaps(ts);
      && (|g| == 0 ==> Average(Sum(g), |g|) == 0.0)
      && (|g| > 0 ==> 1.0 <= Average(Sum(g), |g|) <= (SwitchCapMinutes - 1) as real)
  {
    var g := SwitchGaps(ts);
    SumBounds(g, 1, SwitchCapMinutes - 1);
    if |g| > 0 {
      RatioBounds(Sum(g), |g|, 1, SwitchCapMinutes - 1);
    }
  }

  /** `lo * n <= t <= hi * n` puts the ratio `t / n` in `[lo, hi]`. */
  lemma RatioBounds(t: int, n: int, lo: int, hi: int)
    requires n > 0 && lo * n <= t <= hi * n
    ensures lo as real <= t as real / n as real <= hi as real
  {
    var q := t as real / n as real;
    assert q * n as real == t as real;
  }

  /** Snapshots at t, t+10 min and t+600 min: the 590-minute gap is over the
      cap, so the only counted switch is the 10-minute one. */
  lemma TenMinuteSwitchExample(t: Time, c: Context)
    ensures var cs := [c.(timestamp := t), c.(timestamp := t + 10 * MsPerMinute), c.(timestamp := t + 600 * MsPerMinute)];
      var g := SwitchGaps([Task("id", "title", Active, t, t, cs, Optional.None, Optional.None)]);
      g == [10] && Average(Sum(g), |g|) == 10.0
  {
    var cs := [c.(timestamp := t), c.(timestamp := t + 10 * MsPerMinute), c.(timestamp := t + 600 * MsPerMinute)];
    assert MinutesBetween(cs[1].timestamp, cs[0].timestamp) == 10;
    assert MinutesBetween(cs[2].timestamp, cs[1].timestamp) == 590;
    assert ContextGaps(cs[..1]) == [];
    ContextGapsStep(cs, 1);
    ContextGapsStep(cs, 2);
    assert cs[..3] == cs;
    var ts := [Task("id", "title", Active, t, t, cs, Optional.None, Optional.None)];
    assert SwitchGaps(ts) == SwitchGaps([]) + ContextGaps(cs) by {
      assert ts[..0] == [];
    }
    assert Sum([10]) == 10 by {
      assert [10][..0] == [];
    }
  }

  /** Per-task snapshot counts. */
  function ContextCounts(ts: seq<Task>): (r: seq<int>)
    ensures |r| == |ts| && forall i :: 0 <= i < |ts| ==> r[i] == |ts[i].contexts|
  {
    seq(|ts|, i requires 0 <= i < |ts| => |ts[i].contexts|)
  }

  /** `totalContextSwitches`: the number of snapshots over all tasks. */
  function TotalContextSwitches(ts: seq<Task>): int {
    Sum(ContextCounts(ts))
  }

  /** Snapshots are counted, not gaps: every task with a history contributes
      at least one more than its counted gaps. */
  lemma {:induction false} SnapshotsExceedGaps(ts: seq<Task>)
    ensures TotalContextSwitches(ts) >= |SwitchGaps(ts)| + |Filter(HasHistory, ts)|
  {
    if ts != [] {
      var ts' := ts[..|ts| - 1];
      SnapshotsExceedGaps(ts');
      assert ContextCounts(ts)[..|ts| - 1] == ContextCounts(ts');
    }
  }

  predicate HasHistory(t: Task) {
    |t.contexts| > 0
  }

  // ---------------------------------------------------------------------
  // Active time today

  /** `t.status === 'active' && t.createdAt >= todayStart`. */
  function ActiveSince(start: Time): Task -> bool {
    (t: Task) => t.status == Active && t.createdAt >= start
  }

  /** `reduce((total, task) => total + differenceInHours(now, task.createdAt), 0)`. */
  function ElapsedHours(now: Time, ts: seq<Task>): int {
    if ts == [] then 0 else ElapsedHours(now, ts[..|ts| - 1]) + HoursBetween(now, ts[|ts| - 1].createdAt)
  }

  /** `activeTaskDuration`. */
  function ActiveTaskDuration(ts: seq<Task>, c: Clock): int {
    ElapsedHours(c.now, Filter(ActiveSince(c.todayStart), ts))
  }

  /** Whole hours elapsed over tasks created in `[start, now]` are between 0
      and the hours since `start`, per task. */
  lemma {:induction false} ElapsedHoursBounds(now: Time, start: Time, ts: seq<Task>)
    requires forall i :: 0 <= i < |ts| ==> start <= ts[i].createdAt <= now
    ensures 0 <= ElapsedHours(now, ts) <= |ts| * HoursBetween(now, start)
  {
    if ts != [] {
      var t := ts[|ts| - 1];
      ElapsedHoursBounds(now, start, ts[..|ts| - 1]);
      assert HoursBetween(now, t.createdAt) <= HoursBetween(now, start);
    }
  }

  /** `activeTaskDuration` is non-negative, and bounded by the hours since
      midnight per active task, when no such task was created in the future. */
  lemma ActiveTaskDurationBounds(ts: seq<Task>, c: Clock)
    requires forall t :: t in ts && ActiveSince(c.todayStart)(t) ==> t.createdAt <= c.now
    ensures var n := |Filter(ActiveSince(c.todayStart), ts)|;
      0 <= ActiveTaskDuration(ts, c) <= n * HoursBetween(c.now, c.todayStart)
  {
    var f := Filter(ActiveSince(c.todayStart), ts);
    assert forall i :: 0 <= i < |f| ==> f[i] in f;
    ElapsedHoursBounds(c.now, c.todayStart, f);
  }

  // ---------------------------------------------------------------------
  // Completions by hour of the day

  /** The hour bucket of a task completed since `weekStart`, else -1. */
  function HourKey(weekStart: Time, hourOf: Time -> Hour): Task -> int {
    (t: Task) => if IsCompletedSince(t, weekStart) then hourOf(t.lastModified) else -1
  }

  /** The `hourlyCompletions` / `hourlyTasks` array. */
  function HourlyHistogram(ts: seq<Task>, weekStart: Time, hourOf: Time -> Hour): seq<nat> {
    Buckets(HourKey(weekStart, hourOf), 24, ts)
  }

  function CompletedAtHour(weekStart: Time, hourOf: Time -> Hour, h: int): Task -> bool {
    (t: Task) => IsCompletedSince(t, weekStart) && hourOf(t.lastModified) == h
  }

  /** The histogram has 24 buckets; bucket `h` counts the tasks completed
      this week whose completion fell in hour `h`; the buckets add up to the
      week's completions. */
  lemma HourlyHistogramSpec(ts: seq<Task>, weekStart: Time, hourOf: Time -> Hour)
    ensures var hist := HourlyHistogram(ts, weekStart, hourOf);
      && |hist| == 24
      && (forall h :: 0 <= h < 24 ==> hist[h] == |Filter(CompletedAtHour(weekStart, hourOf, h), ts)|)
      && Sum(hist) == CountCompletedSince(ts, weekStart)
  {
    var key := HourKey(weekStart, hourOf);
    forall h | 0 <= h < 24
      ensures HourlyHistogram(ts, weekStart, hourOf)[h] == |Filter(CompletedAtHour(weekStart, hourOf, h), ts)|
    {
      FilterExt(KeyIs(key, h), CompletedAtHour(weekStart, hourOf, h), ts);
    }
    BucketsSum(key, 24, ts);
    FilterExt(KeyBelow(key, 24), CompletedSince(weekStart), ts);
  }

  /** The `filter(...).forEach(t => hourly[getHours(t.lastModified)]++)` loop. */
  method HourlyCompletions(ts: seq<Task>, weekStart: Time, hourOf: Time -> Hour) returns (counts: seq<nat>)
    ensures counts == HourlyHistogram(ts, weekStart, hourOf)
  {
    var key := HourKey(weekStart, hourOf);
    counts := seq(24, _ => 0);
    assert counts == Buckets(key, 24, ts[..0]);
    var i := 0;
    while i < |ts|
      invariant 0 <= i <= |ts|
      invariant counts == Buckets(key, 24, ts[..i])
    {
      var t := ts[i];
      BucketsSnoc(key, 24, ts[..i], t);
      assert ts[..i + 1] == ts[..i] + [t];
      if t.status == Completed && t.lastModified >= weekStart {
        var h := hourOf(t.lastModified);
        assert key(t) == h;
        counts := counts[h := counts[h] + 1];
      } else {
        assert !IsCompletedSince(t, weekStart);
        assert key(t) == -1;
      }
      i := i + 1;
    }
    assert ts[..i] == ts;
  }

  /** `getTasksByHour`: the same array the dashboard statistics reduce. */
  method GetTasksByHour(ts: seq<Task>, c: Clock, hourOf: Time -> Hour) returns (r: seq<nat>)
    ensures |r| == 24 && Sum(r) == CountCompletedSince(ts, c.weekStart)
    ensures forall h :: 0 <= h < 24 ==> r[h] == |Filter(CompletedAtHour(c.weekStart, hourOf, h), ts)|
    ensures r == HourlyHistogram(ts, c.weekStart, hourOf)
  {
    r := HourlyCompletions(ts, c.weekStart, hourOf);
    HourlyHistogramSpec(ts, c.weekStart, hourOf);
  }

  /** `a.indexOf(Math.max(...a))`: the first position holding the maximum. */
  method FirstMaxIndex(a: seq<nat>) returns (r: nat)
    requires |a| > 0
    ensures r < |a|
    ensures forall j :: 0 <= j < |a| ==> a[j] <= a[r]
    ensures forall j :: 0 <= j < r ==> a[j] < a[r]
  {
    r := 0;
    var j := 1;
    while j < |a|
      invariant 1 <= j <= |a| && r < j
      invariant forall k :: 0 <= k < j ==> a[k] <= a[r]
      invariant forall k :: 0 <= k < r ==> a[k] < a[r]
    {
      if a[j] > a[r] {
        r := j;
      }
      j := j + 1;
    }
  }

  // ---------------------------------------------------------------------
  // Completions by day of the current week

  const DayNames: seq<string> := ["Sun", "Mon", "Tue", "Wed", "Thu", "Fri", "Sat"]

  datatype DayProgress = DayProgress(day: string, completed: nat)

  /** Local midnight `i` days after the week start. */
  function DayStart(weekStart: Time, i: int): Time {
    weekStart + i * MsPerDay
  }

  /** Completed within day `i`: `[dayStart, dayEnd)`. */
  function CompletedOnDay(weekStart: Time, i: int): Task -> bool {
    (t: Task) => t.status == Completed && DayStart(weekStart, i) <= t.lastModified < DayStart(weekStart, i + 1)
  }

  /** `getWeeklyProgress`. */
  function GetWeeklyProgress(ts: seq<Task>, weekStart: Time): (r: seq<DayProgress>)
    ensures |r| == 7 && forall i :: 0 <= i < 7 ==> r[i].day == DayNames[i]
  {
    seq(7, i requires 0 <= i < 7 => DayProgress(DayNames[i], |Filter(CompletedOnDay(weekStart, i), ts)|))
  }

  function Completions(r: seq<DayProgress>): (c: seq<nat>)
    ensures |c| == |r| && forall i :: 0 <= i < |r| ==> c[i] == r[i].completed
  {
    seq(|r|, i requires 0 <= i < |r| => r[i].completed)
  }

  /** The day bucket of a task completed since `weekStart`, else -1. */
  function DayKey(weekStart: Time): Task -> int {
    (t: Task) => if IsCompletedSince(t, weekStart) then (t.lastModified - weekStart) / MsPerDay else -1
  }

  function CompletedInWeek(weekStart: Time): Task -> bool {
    (t: Task) => t.status == Completed && weekStart <= t.lastModified < DayStart(weekStart, 7)
  }

  /** A completion lands in day `i`'s half-open interval exactly when `i` is
      its day key; so it lands in at most one day. */
  lemma DayKeyExact(weekStart: Time, t: Task, i: int)
    requires 0 <= i
    ensures CompletedOnDay(weekStart, i)(t) <==> DayKey(weekStart)(t) == i
  {
    assert DayStart(weekStart, i + 1) == DayStart(weekStart, i) + MsPerDay;
    if t.status == Completed && t.lastModified >= weekStart {
      DivUnique(t.lastModified - weekStart, MsPerDay, i);
    } else if t.status == Completed {
      MulMonotone(0, i, MsPerDay);
      assert DayStart(weekStart, i) >= weekStart;
    }
  }

  /** Each day counts the tasks whose day key is that day. */
  lemma WeeklyIsBucketing(ts: seq<Task>, weekStart: Time)
    ensures Completions(GetWeeklyProgress(ts, weekStart)) == Buckets(DayKey(weekStart), 7, ts)
  {
    forall i | 0 <= i < 7
      ensures GetWeeklyProgress(ts, weekStart)[i].completed == Buckets(DayKey(weekStart), 7, ts)[i]
    {
      forall k | 0 <= k < |ts|
        ensures CompletedOnDay(weekStart, i)(ts[k]) == KeyIs(DayKey(weekStart), i)(ts[k])
      {
        DayKeyExact(weekStart, ts[k], i);
      }
      FilterExt(CompletedOnDay(weekStart, i), KeyIs(DayKey(weekStart), i), ts);
    }
  }

  /** No task is counted on two days, and the seven days together count
      exactly the tasks completed within the seven days from `weekStart`,
      which is at most the completions since `weekStart`. */
  lemma WeeklyTotal(ts: seq<Task>, weekStart: Time)
    ensures forall t, i, j :: 0 <= i < j && CompletedOnDay(weekStart, i)(t) ==> !CompletedOnDay(weekStart, j)(t)
    ensures Sum(Completions(GetWeeklyProgress(ts, weekStart))) == |Filter(CompletedInWeek(weekStart), ts)|
    ensures |Filter(CompletedInWeek(weekStart), ts)| <= CountCompletedSince(ts, weekStart)
  {
    forall t, i, j | 0 <= i < j && CompletedOnDay(weekStart, i)(t)
      ensures !CompletedOnDay(weekStart, j)(t)
    {
      DayKeyExact(weekStart, t, i);
      DayKeyExact(weekStart, t, j);
    }
    WeeklyIsBucketing(ts, weekStart);
    BucketsSum(DayKey(weekStart), 7, ts);
    forall k | 0 <= k < |ts|
      ensures KeyBelow(DayKey(weekStart), 7)(ts[k]) == CompletedInWeek(weekStart)(ts[k])
    {
      DayKeyInWeek(weekStart, ts[k]);
    }
    FilterExt(KeyBelow(DayKey(weekStart), 7), CompletedInWeek(weekStart), ts);
    WeekWithinSince(ts, weekStart);
  }

  lemma DayKeyInWeek(weekStart: Time, t: Task)
    ensures 0 <= DayKey(weekStart)(t) < 7 <==> CompletedInWeek(weekStart)(t)
  {
    if t.status == Completed && t.lastModified >= weekStart {
      var d := t.lastModified - weekStart;
      DivBounds(d, MsPerDay);
      var q := d / MsPerDay;
      if q >= 7 {
        MulMonotone(7, q, MsPerDay);
      } else {
        MulMonotone(q + 1, 7, MsPerDay);
        assert (q + 1) * MsPerDay == q * MsPerDay + MsPerDay;
      }
    }
  }

  lemma {:induction false} WeekWithinSince(ts: seq<Task>, weekStart: Time)
    ensures |Filter(CompletedInWeek(weekStart), ts)| <= CountCompletedSince(ts, weekStart)
  {
    if ts != [] {
      WeekWithinSince(ts[..|ts| - 1], weekStart);
    }
  }

  /** One more task completed on day `d` raises that day's count by exactly
      one and leaves the other six days as they were. */
  lemma WeeklyProgressAddsOne(ts: seq<Task>, weekStart: Time, t: Task, d: int)
    requires 0 <= d < 7 && CompletedOnDay(weekStart, d)(t)
    ensures forall i :: 0 <= i < 7 ==>
      GetWeeklyProgress(ts + [t], weekStart)[i].completed
        == GetWeeklyProgress(ts, weekStart)[i].completed + (if i == d then 1 else 0)
  {
    WeeklyIsBucketing(ts, weekStart);
    WeeklyIsBucketing(ts + [t], weekStart);
    BucketsSnoc(DayKey(weekStart), 7, ts, t);
    DayKeyExact(weekStart, t, d);
  }

  // ---------------------------------------------------------------------
  // The dashboard record

  datatype DashboardStats = DashboardStats(
    completedToday: nat,
    completedThisWeek: nat,
    completedThisMonth: nat,
    averageContextSwitchTime: real,
    totalContextSwitches: int,
    mostProductiveHour: Hour,
    interruptionCount: nat,
    activeTaskDuration: int)

  /** `calculateDashboardStats`. */
  method CalculateDashboardStats(ts: seq<Task>, c: Clock, hourOf: Time -> Hour) returns (r: DashboardStats)
    requires ValidClock(c)
    ensures r.completedToday == CountCompletedSince(ts, c.todayStart)
    ensures r.completedThisWeek == CountCompletedSince(ts, c.weekStart)
    ensures r.completedThisMonth == CountCompletedSince(ts, c.monthStart)
    ensures r.completedToday <= r.completedThisWeek <= |ts|
    ensures r.completedToday <= r.completedThisMonth <= |ts|
    ensures r.interruptionCount == InterruptionCount(ts, c.todayStart)
    ensures r.completedToday + r.interruptionCount <= |ts|
    ensures r.averageContextSwitchTime == 0.0 || 1.0 <= r.averageContextSwitchTime <= 479.0
    ensures r.averageContextSwitchTime == Average(Sum(SwitchGaps(ts)), |SwitchGaps(ts)|)
    ensures r.totalContextSwitches == TotalContextSwitches(ts) >= |SwitchGaps(ts)|
    ensures var hist := HourlyHistogram(ts, c.weekStart, hourOf);
      && Sum(hist) == r.completedThisWeek
      && (forall h :: 0 <= h < 24 ==> hist[h] <= hist[r.mostProductiveHour])
      && (forall h :: 0 <= h < r.mostProductiveHour ==> hist[h] < hist[r.mostProductiveHour])
    ensures r.completedThisWeek == 0 ==> r.mostProductiveHour == 0
    ensures r.activeTaskDuration == ActiveTaskDuration(ts, c)
  {
    var completedToday := CountCompletedSince(ts, c.todayStart);
    var completedThisWeek := CountCompletedSince(ts, c.weekStart);
    var completedThisMonth := CountCompletedSince(ts, c.monthStart);
    CompletedSinceMonotone(ts, c.weekStart, c.todayStart);
    CompletedSinceMonotone(ts, c.monthStart, c.todayStart);

    var total, count := SwitchTotals(ts);
    AverageSwitchBounds(ts);
    var average := Average(total, count);

    var interruptions := InterruptionCount(ts, c.todayStart);
    CompletedAndPausedDisjoint(ts, c.todayStart);

    var hourly := HourlyCompletions(ts, c.weekStart, hourOf);
    HourlyHistogramSpec(ts, c.weekStart, hourOf);
    var best := FirstMaxIndex(hourly);
    if completedThisWeek == 0 {
      FirstMaxOfZeros(hourly, best);
    }

    SnapshotsExceedGaps(ts);
    r := DashboardStats(completedToday, completedThisWeek, completedThisMonth, average,
                        TotalContextSwitches(ts), best, interruptions, ActiveTaskDuration(ts, c));
  }

  /** When every bucket is empty the first maximum is the first bucket. */
  lemma FirstMaxOfZeros(a: seq<nat>, r: nat)
    requires Sum(a) == 0 && r < |a|
    requires forall j :: 0 <= j < r ==> a[j] < a[r]
    ensures r == 0
  {
    AllZero(a, r);
    AllZero(a, 0);
  }

  /** A sum of naturals that is zero has only zero terms. */
  lemma {:induction false} AllZero(a: seq<nat>, i: nat)
    requires Sum(a) == 0 && i < |a|
    ensures a[i] == 0
  {
    NonNegativeSum(a[..|a| - 1]);
    if i < |a| - 1 {
      AllZero(a[..|a| - 1], i);
    }
  }

  lemma {:induction false} NonNegativeSum(a: seq<nat>)
    ensures Sum(a) >= 0
  {
    if a != [] {
      NonNegativeSum(a[..|a| - 1]);
    }
  }
}

/** The progress page: calorie total, type distribution, workout goal, longest streak and monthly histogram. */
module ProgressPage {
  import opened Records
  import opened Grouping

  /** Every day strictly after the one before it (so no day twice). */
  predicate StrictlyIncreasing(s: seq<Day>)
  {
    forall i, j :: 0 <= i < j < |s| ==> s[i] < s[j]
  }

  /** Puts `x` into a strictly increasing list, unless it is already there. */
  function Insert(x: Day, s: seq<Day>): (r: seq<Day>)
    requires StrictlyIncreasing(s)
    ensures StrictlyIncreasing(r)
    ensures forall y :: y in r <==> y in s || y == x
  {
    if s == [] then [x]
    else if x < s[0] then [x] + s
    else if x == s[0] then s
    else
      var rest := Insert(x, s[1..]);
      assert forall k :: 0 <= k < |rest| ==> rest[k] in rest;
      assert forall y :: y in rest ==> s[0] < y;
      [s[0]] + rest
  }

  /**
   * The deduplicated, sorted day list of `calculateStats`: the distinct days, ascending. The
   * result is determined by the set of days alone.
   */
  function SortedDistinct(days: seq<Day>): (r: seq<Day>)
    ensures StrictlyIncreasing(r)
    ensures forall y :: y in r <==> y in days
  {
    if days == [] then []
    else Insert(days[|days| - 1], SortedDistinct(days[..|days| - 1]))
  }

  /** The dates of some workouts, in list order. */
  function Dates(ws: seq<Workout>): seq<Day>
  {
    seq(|ws|, i requires 0 <= i < |ws| => ws[i].date)
  }

  lemma DatesAreDates(ws: seq<Workout>)
    ensures forall d :: d in Dates(ws) <==> exists w :: w in ws && w.date == d
  {
    var days := Dates(ws);
    forall d | d in days
      ensures exists w :: w in ws && w.date == d
    {
      var i :| 0 <= i < |days| && days[i] == d;
      assert ws[i] in ws;
    }
    forall d | exists w :: w in ws && w.date == d
      ensures d in days
    {
      var w :| w in ws && w.date == d;
      var i :| 0 <= i < |ws| && ws[i] == w;
      assert days[i] == d;
    }
  }

  /**
   * The dates of the completed workouts, one per completed workout in list order:
   * a day occurs exactly when some completed workout is dated on it.
   */
  function CompletedDays(data: seq<Workout>): (r: seq<Day>)
    ensures |r| == |Completed(data)|
    ensures forall d :: d in r <==> exists w :: w in data && w.completed && w.date == d
  {
    DatesAreDates(Completed(data));
    Dates(Completed(data))
  }

  /** The input of the streak scan: each day with a completed workout, once, ascending. */
  function StreakDays(data: seq<Workout>): (r: seq<Day>)
    ensures StrictlyIncreasing(r)
    ensures forall d :: d in r <==> exists w :: w in data && w.completed && w.date == d
  {
    SortedDistinct(CompletedDays(data))
  }

  /** The `len` entries from index `lo` are consecutive days. */
  ghost predicate IsRun(dates: seq<Day>, lo: int, len: int)
  {
    && 0 <= lo
    && 0 <= len
    && lo + len <= |dates|
    && forall k :: lo < k < lo + len ==> dates[k] == dates[k - 1] + 1
  }

  /**
   * `streak` is the length of the longest run of consecutive days in `dates`,
   * and 1 for an empty list (the scan starts with a current streak of 1).
   */
  ghost predicate IsLongestStreak(dates: seq<Day>, streak: nat)
  {
    if dates == [] then streak == 1
    else
      && (exists lo :: IsRun(dates, lo, streak))
      && (forall lo, len :: IsRun(dates, lo, len) ==> len <= streak)
  }

  /** A run cannot pass a place where the next day is not the day after. */
  lemma RunStopsAtBreak(dates: seq<Day>, lo: int, len: int, b: int)
    requires IsRun(dates, lo, len)
    requires 0 < b < |dates| && dates[b] != dates[b - 1] + 1
    requires lo < b
    ensures lo + len <= b
  {
  }

  /** No run of consecutive days that ends by index `end` is longer than `m`. */
  ghost predicate RunsBounded(dates: seq<Day>, end: int, m: nat)
  {
    forall lo, len :: IsRun(dates, lo, len) && lo + len <= end ==> len <= m
  }

  /**
   * Closing the current run at a break: when every run ending by its start is at
   * most `m`, every run ending by its end is at most the larger of `m` and its length.
   */
  lemma CloseRun(dates: seq<Day>, start: int, end: int, m: nat)
    requires 0 <= start < end <= |dates|
    requires start > 0 ==> dates[start] != dates[start - 1] + 1
    requires RunsBounded(dates, start, m)
    ensures RunsBounded(dates, end, Max(m, end - start))
  {
    forall lo, len | IsRun(dates, lo, len) && lo + len <= end
      ensures len <= Max(m, end - start)
    {
      if lo < start {
        RunStopsAtBreak(dates, lo, len, start);
      }
    }
  }

  /** The larger of two lengths. */
  function Max(a: nat, b: nat): nat
  {
    if a > b then a else b
  }

  /**
   * The streak loop of `calculateStats`: the length of the longest run of
   * consecutive days, with 1 for an empty list.
   */
  method LongestStreak(dates: seq<Day>) returns (streak: nat)
    ensures IsLongestStreak(dates, streak)
  {
    var maxStreak: nat, currentStreak: nat := 0, 1;
    ghost var maxLo: int := 0;
    var i := 1;
    while i < |dates|
      invariant dates == [] ==> maxStreak == 0 && currentStreak == 1
      invariant dates != [] ==> 1 <= i <= |dates|
      invariant dates != [] ==> 1 <= currentStreak <= i && IsRun(dates, i - currentStreak, currentStreak)
      invariant dates != [] && i - currentStreak > 0 ==>
        dates[i - currentStreak] != dates[i - currentStreak - 1] + 1
      invariant dates != [] ==> IsRun(dates, maxLo, maxStreak) && maxLo + maxStreak <= i - currentStreak
      invariant dates != [] ==> RunsBounded(dates, i - currentStreak, maxStreak)
    {
      var diff := dates[i] - dates[i - 1];
      if diff == 1 {
        currentStreak := currentStreak + 1;
      } else {
        ghost var start := i - currentStreak;
        CloseRun(dates, start, i, maxStreak);
        if currentStreak > maxStreak {
          maxLo := start;
        }
        maxStreak := Max(maxStreak, currentStreak);
        currentStreak := 1;
      }
      i := i + 1;
    }
    streak := Max(maxStreak, currentStreak);
    if dates != [] {
      var start := |dates| - currentStreak;
      CloseRun(dates, start, |dates|, maxStreak);
      if currentStreak >= maxStreak {
        assert IsRun(dates, start, streak);
      } else {
        assert IsRun(dates, maxLo, streak);
      }
    }
  }

  /** With at least one day, the streak is at least 1 and at most the number of days. */
  lemma StreakBounds(dates: seq<Day>, streak: nat)
    requires dates != []
    requires IsLongestStreak(dates, streak)
    ensures 1 <= streak <= |dates|
  {
    assert IsRun(dates, 0, 1);
  }

  /**
   * A list of workouts none of which is completed still shows a streak of 1:
   * the scan runs over no days and keeps its initial current streak.
   */
  lemma StreakWithoutCompletedWorkouts(data: seq<Workout>, streak: nat)
    requires forall i :: 0 <= i < |data| ==> !data[i].completed
    requires IsLongestStreak(StreakDays(data), streak)
    ensures streak == 1
  {
  }

  /** The fixed target of the "Current Goal" card: twelve completed workouts. */
  const WorkoutGoal: nat := 12

  /**
   * The share of the twelve-workout goal, in percent and not capped. The card's
   * numerator, the percentage scaled back to twelve, gives the completed count exactly.
   */
  function GoalProgress(completedCount: nat): (p: real)
    ensures p >= 0.0
    ensures p >= 100.0 <==> completedCount >= WorkoutGoal
    ensures p > 100.0 <==> completedCount > WorkoutGoal
    ensures (p / 100.0) * WorkoutGoal as real == completedCount as real
  {
    (completedCount as real / WorkoutGoal as real) * 100.0
  }

  /** The statistics `calculateStats` sets. */
  datatype Stats = Stats(totalCalories: nat, distribution: seq<Entry>, goalProgress: real, streak: nat)

  /**
   * `calculateStats`: an empty list leaves every statistic as it was; otherwise the
   * calories of the completed workouts, the count of every type, the share of the
   * twelve-workout goal, and the longest streak of consecutive completion days.
   */
  method CalculateStats(prev: Stats, data: seq<Workout>) returns (s: Stats)
    ensures data == [] ==> s == prev
    ensures data != [] ==> s.totalCalories == Sum(data, CompletedCalories)
    ensures data != [] ==> DistinctNames(s.distribution)
    ensures data != [] ==> forall t :: t in Names(s.distribution) <==> t in Kinds(data)
    ensures data != [] ==> forall j :: 0 <= j < |s.distribution| ==>
      s.distribution[j].value == multiset(Kinds(data))[s.distribution[j].name]
    ensures data != [] ==> SumValues(s.distribution) == |data|
    ensures data != [] ==> s.goalProgress == GoalProgress(|Completed(data)|)
    ensures data != [] ==> IsLongestStreak(StreakDays(data), s.streak)
  {
    if |data| == 0 {
      return prev;
    }
    var completedWorkouts := Completed(data);
    var totalCals := Sum(completedWorkouts, Calories);
    CompletedCaloriesTotal(data);
    var chartData := CountByType(data);
    var completedCount := |Completed(data)|;
    var goalProgress := (completedCount as real / WorkoutGoal as real) * 100.0;
    var dates := StreakDays(data);
    var streak := LongestStreak(dates);
    s := Stats(totalCals, chartData, goalProgress, streak);
  }

  /** A month of the year, 0 for January to 11 for December. */
  type Month = m: int | 0 <= m < 12

  const MonthNames: seq<string> :=
    ["Jan", "Feb", "Mar", "Apr", "May", "Jun", "Jul", "Aug", "Sep", "Oct", "Nov", "Dec"]

  /** One point of the monthly line chart. */
  datatype MonthCount = MonthCount(month: string, workouts: nat)

  /** The number of workouts, completed or not, dated in month `m`. */
  function CountInMonth(ws: seq<Workout>, m: Month, monthOf: Day -> Month): nat
  {
    if ws == [] then 0
    else CountInMonth(ws[..|ws| - 1], m, monthOf) + (if monthOf(ws[|ws| - 1].date) == m then 1 else 0)
  }

  function SumCounts(s: seq<nat>): nat
  {
    if s == [] then 0 else SumCounts(s[..|s| - 1]) + s[|s| - 1]
  }

  function TotalWorkouts(chart: seq<MonthCount>): nat
  {
    if chart == [] then 0 else TotalWorkouts(chart[..|chart| - 1]) + chart[|chart| - 1].workouts
  }

  lemma {:induction false} SumCountsOfZeros(s: seq<nat>)
    requires forall k :: 0 <= k < |s| ==> s[k] == 0
    ensures SumCounts(s) == 0
  {
    if s != [] {
      SumCountsOfZeros(s[..|s| - 1]);
    }
  }

  lemma {:induction false} SumCountsIncrement(s: seq<nat>, m: nat)
    requires m < |s|
    ensures SumCounts(s[m := s[m] + 1]) == SumCounts(s) + 1
  {
    var n := |s| - 1;
    if m < n {
      assert s[m := s[m] + 1][..n] == s[..n][m := s[m] + 1];
      SumCountsIncrement(s[..n], m);
    } else {
      assert s[m := s[m] + 1][..n] == s[..n];
    }
  }

  lemma {:induction false} TotalIsSumCounts(chart: seq<MonthCount>, counts: seq<nat>)
    requires |chart| == |counts|
    requires forall m :: 0 <= m < |chart| ==> chart[m].workouts == counts[m]
    ensures TotalWorkouts(chart) == SumCounts(counts)
  {
    if chart != [] {
      TotalIsSumCounts(chart[..|chart| - 1], counts[..|counts| - 1]);
    }
  }

  /**
   * `monthlyData`: twelve points, January to December, each counting the
   * workouts dated in that month (`monthOf` stands for `getMonth` in the
   * browser's time zone); together they count every workout.
   */
  method MonthlyData(workouts: seq<Workout>, monthOf: Day -> Month) returns (chart: seq<MonthCount>)
    ensures |chart| == 12
    ensures forall m: Month :: chart[m].month == MonthNames[m] && chart[m].workouts == CountInMonth(workouts, m, monthOf)
    ensures TotalWorkouts(chart) == |workouts|
  {
    var grouped: seq<nat> := [0, 0, 0, 0, 0, 0, 0, 0, 0, 0, 0, 0];
    SumCountsOfZeros(grouped);
    var i := 0;
    while i < |workouts|
      invariant 0 <= i <= |workouts|
      invariant |grouped| == 12
      invariant forall m: Month :: grouped[m] == CountInMonth(workouts[..i], m, monthOf)
      invariant SumCounts(grouped) == i
    {
      var m := monthOf(workouts[i].date);
      assert workouts[..i + 1][..i] == workouts[..i];
      SumCountsIncrement(grouped, m);
      grouped := grouped[m := grouped[m] + 1];
      i := i + 1;
    }
    assert workouts[..i] == workouts;
    chart := seq(12, m requires 0 <= m < 12 => MonthCount(MonthNames[m], grouped[m]));
    TotalIsSumCounts(chart, grouped);
  }
}

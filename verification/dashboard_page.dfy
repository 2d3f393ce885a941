/** The dashboard: completed-workout count, calorie total and bar, per-type calories and the recent table. */
module DashboardPage {
  import opened Lists
  import opened Records
  import opened Grouping

  /** The state `fetchUserWorkouts` sets. */
  datatype Dashboard = Dashboard(completedWorkouts: seq<Workout>, totalCalories: nat, chartData: seq<Entry>)

  /**
   * `fetchUserWorkouts` after the read: keeps the completed workouts, totals their
   * calories and sums the calories per type. Only types that have a completed
   * workout get a bar, and the bars add up to the total.
   */
  method FetchUserWorkouts(workouts: seq<Workout>) returns (d: Dashboard)
    ensures d.completedWorkouts == Completed(workouts)
    ensures d.totalCalories == Sum(workouts, CompletedCalories)
    ensures DistinctNames(d.chartData)
    ensures forall t :: t in Names(d.chartData) <==> t in Kinds(Completed(workouts))
    ensures forall j :: 0 <= j < |d.chartData| ==>
      d.chartData[j].value == SumOfType(Completed(workouts), d.chartData[j].name, Calories)
    ensures SumValues(d.chartData) == d.totalCalories
  {
    var completed := Completed(workouts);
    var total := Sum(completed, Calories);
    CompletedCaloriesTotal(workouts);
    var grouped := GroupByType(completed, Calories);
    d := Dashboard(completed, total, grouped);
  }

  /** The number of rows the recent table shows for `n` completed workouts. */
  function RecentCount(n: nat): nat
  {
    if n < 5 then n else 5
  }

  /**
   * The recent-workouts table: the last five completed workouts (fewer if there
   * are fewer), reversed, so at most five rows with the most
   * recently listed completed workout first.
   */
  function Recent(completed: seq<Workout>): (r: seq<Workout>)
    ensures |r| == RecentCount(|completed|)
    ensures forall k :: 0 <= k < |r| ==> r[k] == completed[|completed| - 1 - k]
  {
    var start := if |completed| < 5 then 0 else |completed| - 5;
    Reverse(completed[start..])
  }

  /** The width of the calorie bar, in percent: a tenth of the total, capped at 100. */
  function CalorieBarWidth(totalCalories: nat): (r: real)
    ensures 0.0 <= r <= 100.0
    ensures totalCalories <= 1000 ==> r == totalCalories as real / 10.0
    ensures totalCalories >= 1000 ==> r == 100.0
  {
    var width := (totalCalories as real / 1000.0) * 100.0;
    if width < 100.0 then width else 100.0
  }

  /** The goals card: "Active" once any workout is completed, "Pending" before. */
  function GoalsLabel(completedWorkouts: seq<Workout>): (r: string)
    ensures r == "Active" <==> |completedWorkouts| > 0
    ensures r == "Pending" <==> |completedWorkouts| == 0
  {
    if |completedWorkouts| > 0 then "Active" else "Pending"
  }
}

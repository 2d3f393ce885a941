/**
 * The goals page: every goal's progress is recomputed from the workout history
 * each time the goals or the workouts are read; goals are added, edited and
 * deleted, listed as active or achieved, and the overview chart can be reset.
 */
module GoalsPage {
  import opened Wrappers
  import opened Lists
  import opened Records
  import WorkoutPage

  /** A moment in time, in milliseconds since 1970-01-01T00:00:00Z. */
  type Instant = int

  const MsPerDay: int := 86400000

  /** A workout's date is a date-only string, which parses to midnight UTC of that day. */
  function Midnight(d: Day): Instant
  {
    d * MsPerDay
  }

  datatype Status = Active | Achieved

  /**
   * A stored goal. `targetCalories` is already a number, a missing target being 0; `createdAt` is absent on goals stored without a creation time.
   */
  datatype Goal = Goal(
    id: string,
    kind: string,
    targetCalories: int,
    deadline: Day,
    createdAt: Option<Instant>,
    progress: real,
    currentCalories: nat,
    status: Status)

  /** A goal without a creation time takes every workout; otherwise the workout's midnight must not be before the creation instant. */
  function OnOrAfterCreation(createdAt: Option<Instant>, w: Workout): bool
  {
    createdAt.None? || Midnight(w.date) >= createdAt.value
  }

  /** A workout is credited to a goal when it is completed and not dated before the goal's creation. */
  function Credited(createdAt: Option<Instant>, w: Workout): bool
  {
    w.completed && OnOrAfterCreation(createdAt, w)
  }

  /** The two chained `filter`s of `fetchGoals`. */
  function CreditedWorkouts(ws: seq<Workout>, createdAt: Option<Instant>): seq<Workout>
  {
    Filter(Completed(ws), (w: Workout) => OnOrAfterCreation(createdAt, w))
  }

  /**
   * The burned calories `fetchGoals` computes for a goal: the chained filters
   * followed by the summing `reduce`. They come to the one-pass reference sum of
   * the credited calories, and never exceed the calories of all completed workouts.
   */
  function BurnedCalories(ws: seq<Workout>, createdAt: Option<Instant>): (r: nat)
    ensures r == CreditedCalories(ws, createdAt)
    ensures r <= Sum(ws, CompletedCalories)
  {
    BurnedCaloriesAreCredited(ws, createdAt);
    CreditedAtMostCompleted(ws, createdAt);
    Sum(CreditedWorkouts(ws, createdAt), Calories)
  }

  /** Reference definition: one pass adding the calories of each credited workout. */
  function CreditedCalories(ws: seq<Workout>, createdAt: Option<Instant>): nat
  {
    if ws == [] then 0
    else
      var w := ws[|ws| - 1];
      CreditedCalories(ws[..|ws| - 1], createdAt) + (if Credited(createdAt, w) then w.calories else 0)
  }

  /** Appending a workout appends it to the credited list exactly when it is credited. */
  lemma CreditedWorkoutsAppend(ws: seq<Workout>, w: Workout, createdAt: Option<Instant>)
    ensures CreditedWorkouts(ws + [w], createdAt) ==
      CreditedWorkouts(ws, createdAt) + (if Credited(createdAt, w) then [w] else [])
  {
    var since := (x: Workout) => OnOrAfterCreation(createdAt, x);
    CompletedConcat(ws, [w]);
    FilterSingleton(w, IsCompleted);
    FilterConcat(Completed(ws), Completed([w]), since);
    if w.completed {
      FilterSingleton(w, since);
    } else {
      assert Completed([w]) == [];
    }
  }

  /** The last workout adds its calories to the filtered sum exactly when it is credited. */
  lemma BurnedCaloriesLast(ws: seq<Workout>, createdAt: Option<Instant>)
    requires ws != []
    ensures Sum(CreditedWorkouts(ws, createdAt), Calories) == Sum(CreditedWorkouts(ws[..|ws| - 1], createdAt), Calories) +
      (if Credited(createdAt, ws[|ws| - 1]) then ws[|ws| - 1].calories else 0)
  {
    var init, w := ws[..|ws| - 1], ws[|ws| - 1];
    var tail := if Credited(createdAt, w) then [w] else [];
    assert ws == init + [w];
    CreditedWorkoutsAppend(init, w, createdAt);
    SumConcat(CreditedWorkouts(init, createdAt), tail, Calories);
    if tail != [] {
      assert tail[..0] == [];
    }
  }

  /** The chained filters and the reduce add up exactly the calories of the credited workouts. */
  lemma {:induction false} BurnedCaloriesAreCredited(ws: seq<Workout>, createdAt: Option<Instant>)
    ensures Sum(CreditedWorkouts(ws, createdAt), Calories) == CreditedCalories(ws, createdAt)
  {
    if ws != [] {
      BurnedCaloriesLast(ws, createdAt);
      BurnedCaloriesAreCredited(ws[..|ws| - 1], createdAt);
    }
  }

  /** Without a creation time a goal is credited with every completed workout. */
  lemma BurnedWithoutCreationTime(ws: seq<Workout>)
    ensures BurnedCalories(ws, None) == Sum(Completed(ws), Calories)
  {
    FilterKeepsAll(Completed(ws), (w: Workout) => OnOrAfterCreation(None, w));
  }

  /** The credited calories never exceed the calories of all completed workouts. */
  lemma {:induction false} CreditedAtMostCompleted(ws: seq<Workout>, createdAt: Option<Instant>)
    ensures CreditedCalories(ws, createdAt) <= Sum(ws, CompletedCalories)
  {
    if ws != [] {
      CreditedAtMostCompleted(ws[..|ws| - 1], createdAt);
    }
  }

  /**
   * A workout dated on the day a goal was created is not credited to it, unless
   * the goal was created exactly at midnight UTC: the date parses to that midnight,
   * which is earlier than the creation instant.
   */
  lemma SameDayWorkoutNotCredited(t: Instant, w: Workout)
    requires t % MsPerDay != 0
    requires w.date == t / MsPerDay
    ensures !Credited(Some(t), w)
  {
  }

  /**
   * The progress `fetchGoals` computes: the percentage of the target burned, capped at 100, and 0 for a missing or non-positive target.
   */
  function GoalProgress(target: int, burned: nat): (p: real)
    ensures 0.0 <= p <= 100.0
    ensures target <= 0 ==> p == 0.0
    ensures target > 0 && burned < target ==> p == (burned as real / target as real) * 100.0
    ensures p == 100.0 <==> target > 0 && burned >= target
  {
    if target > 0 then
      var percent := (burned as real / target as real) * 100.0;
      RatioAtLeastOne(burned, target);
      if percent < 100.0 then percent else 100.0
    else 0.0
  }

  lemma RatioAtLeastOne(burned: nat, target: int)
    requires target > 0
    ensures (burned as real / target as real) * 100.0 >= 100.0 <==> burned >= target
  {
    var ratio := burned as real / target as real;
    assert ratio * target as real == burned as real;
  }

  /** Burning more never lowers a goal's progress. */
  lemma GoalProgressMonotone(target: int, b1: nat, b2: nat)
    requires b1 <= b2
    ensures GoalProgress(target, b1) <= GoalProgress(target, b2)
  {
    if target > 0 {
      var t := target as real;
      assert b1 as real / t <= b2 as real / t by {
        assert (b2 as real / t) - (b1 as real / t) == (b2 - b1) as real / t;
      }
    }
  }

  /** The status `fetchGoals` writes: achieved from 100 percent on, active below it. */
  function StatusOf(progress: real): (s: Status)
    ensures s == Achieved <==> progress >= 100.0
    ensures s == Active <==> progress < 100.0
  {
    if progress >= 100.0 then Achieved else Active
  }

  /**
   * One iteration of `fetchGoals`: the stored goal with its progress, current
   * calories and status recomputed.
   * Only the three computed fields change; the goal is achieved exactly when its
   * target is positive and the credited calories reach it.
   */
  function Reconcile(g: Goal, ws: seq<Workout>): (r: Goal)
    ensures r.id == g.id && r.kind == g.kind && r.targetCalories == g.targetCalories
    ensures r.deadline == g.deadline && r.createdAt == g.createdAt
    ensures r.currentCalories == CreditedCalories(ws, g.createdAt)
    ensures r.progress == GoalProgress(g.targetCalories, r.currentCalories)
    ensures 0.0 <= r.progress <= 100.0
    ensures r.status == Achieved <==> g.targetCalories > 0 && r.currentCalories >= g.targetCalories
    ensures r.status == Achieved <==> r.progress == 100.0
  {
    var burned := BurnedCalories(ws, g.createdAt);
    var progress := GoalProgress(g.targetCalories, burned);
    g.(progress := progress, currentCalories := burned, status := StatusOf(progress))
  }

  /** Every goal reconciled, in the same order. */
  function ReconcileAll(gs: seq<Goal>, ws: seq<Workout>): (r: seq<Goal>)
    ensures |r| == |gs|
    ensures forall i :: 0 <= i < |gs| ==> r[i] == Reconcile(gs[i], ws)
  {
    seq(|gs|, i requires 0 <= i < |gs| => Reconcile(gs[i], ws))
  }

  /**
   * The loop of `fetchGoals` over the goals read from the store (the writes back
   * to the store are not modelled): one updated goal per stored goal, same order.
   */
  method FetchGoals(rawGoals: seq<Goal>, workouts: seq<Workout>) returns (updatedGoals: seq<Goal>)
    ensures updatedGoals == ReconcileAll(rawGoals, workouts)
  {
    updatedGoals := [];
    for i := 0 to |rawGoals|
      invariant |updatedGoals| == i
      invariant forall k :: 0 <= k < i ==> updatedGoals[k] == Reconcile(rawGoals[k], workouts)
    {
      var g := rawGoals[i];
      var target := g.targetCalories;
      var burnedCalories := BurnedCalories(workouts, g.createdAt);
      var progress := GoalProgress(target, burnedCalories);
      var status := StatusOf(progress);
      var newGoal := g.(progress := progress, currentCalories := burnedCalories, status := status);
      updatedGoals := updatedGoals + [newGoal];
    }
  }

  /** Re-reading after a workout is marked completed never lowers a goal's progress, nor un-achieves it. */
  lemma MarkCompletedNeverLowersProgress(g: Goal, ws: seq<Workout>, id: string)
    ensures Reconcile(g, ws).progress <= Reconcile(g, WorkoutPage.MarkCompleted(ws, id)).progress
    ensures Reconcile(g, ws).status == Achieved ==> Reconcile(g, WorkoutPage.MarkCompleted(ws, id)).status == Achieved
  {
    var marked := WorkoutPage.MarkCompleted(ws, id);
    CreditedMonotone(ws, marked, g.createdAt);
    GoalProgressMonotone(g.targetCalories, BurnedCalories(ws, g.createdAt), BurnedCalories(marked, g.createdAt));
  }

  /** A list whose workouts only gain completion, dates and calories unchanged, credits at least as much. */
  lemma {:induction false} CreditedMonotone(a: seq<Workout>, b: seq<Workout>, createdAt: Option<Instant>)
    requires |a| == |b|
    requires forall i :: 0 <= i < |a| ==>
      a[i].calories == b[i].calories && a[i].date == b[i].date && (a[i].completed ==> b[i].completed)
    ensures CreditedCalories(a, createdAt) <= CreditedCalories(b, createdAt)
  {
    if a != [] {
      CreditedMonotone(a[..|a| - 1], b[..|b| - 1], createdAt);
    }
  }

  function IsActive(g: Goal): bool { g.status == Active }

  function IsAchieved(g: Goal): bool { g.status == Achieved }

  /** The goals listed under "Active Goals": exactly those still active, each as often as stored. */
  function ActiveGoals(gs: seq<Goal>): (r: seq<Goal>)
    ensures forall g :: g in r <==> g in gs && g.status == Active
    ensures forall g :: multiset(r)[g] == if g.status == Active then multiset(gs)[g] else 0
  {
    Filter(gs, IsActive)
  }

  /** The goals listed under "Achieved Goals": exactly those achieved, each as often as stored. */
  function AchievedGoals(gs: seq<Goal>): (r: seq<Goal>)
    ensures forall g :: g in r <==> g in gs && g.status == Achieved
    ensures forall g :: multiset(r)[g] == if g.status == Achieved then multiset(gs)[g] else 0
  {
    Filter(gs, IsAchieved)
  }

  /**
   * The active and achieved lists split the goals between them, so the overview's
   * "completed / total" count is consistent with the two lists.
   */
  lemma GoalsPartition(gs: seq<Goal>)
    ensures multiset(ActiveGoals(gs)) + multiset(AchievedGoals(gs)) == multiset(gs)
    ensures |ActiveGoals(gs)| + |AchievedGoals(gs)| == |gs|
  {
    var a, b := ActiveGoals(gs), AchievedGoals(gs);
    forall g
      ensures (multiset(a) + multiset(b))[g] == multiset(gs)[g]
    {
      assert IsActive(g) != IsAchieved(g);
    }
    assert multiset(a) + multiset(b) == multiset(gs);
    assert |multiset(a) + multiset(b)| == |multiset(gs)|;
  }

  /** After reconciliation the achieved list holds exactly the goals whose positive target was reached. */
  lemma AchievedAreReachedTargets(gs: seq<Goal>, ws: seq<Workout>, g: Goal)
    ensures g in AchievedGoals(ReconcileAll(gs, ws)) <==>
      g in ReconcileAll(gs, ws) && g.targetCalories > 0 && g.currentCalories >= g.targetCalories
  {
  }

  /** `handleDeleteGoal` on the page state: exactly the goals with that id go. */
  function DeleteGoal(gs: seq<Goal>, id: string): (r: seq<Goal>)
    ensures forall g :: g in r <==> g in gs && g.id != id
    ensures forall g :: multiset(r)[g] == if g.id == id then 0 else multiset(gs)[g]
  {
    Filter(gs, (g: Goal) => g.id != id)
  }

  /** The goals that remain keep their relative order. */
  lemma DeleteGoalKeepsOrder(a: seq<Goal>, b: seq<Goal>, id: string)
    ensures DeleteGoal(a + b, id) == DeleteGoal(a, id) + DeleteGoal(b, id)
  {
    FilterConcat(a, b, (g: Goal) => g.id != id);
  }

  /**
   * Deleting from the reconciled list, as the page does without re-reading,
   * gives the list a fresh read of the remaining goals would give.
   */
  lemma {:induction false} DeleteCommutesWithReconcile(gs: seq<Goal>, ws: seq<Workout>, id: string)
    ensures DeleteGoal(ReconcileAll(gs, ws), id) == ReconcileAll(DeleteGoal(gs, id), ws)
  {
    if gs != [] {
      var g, rest := gs[0], gs[1..];
      assert gs == [g] + rest;
      assert ReconcileAll([g], ws) == [Reconcile(g, ws)];
      assert ReconcileAll([], ws) == [];
      ReconcileAllConcat([g], rest, ws);
      DeleteCommutesWithReconcile(rest, ws, id);
      DeleteGoalKeepsOrder([g], rest, id);
      DeleteGoalKeepsOrder([Reconcile(g, ws)], ReconcileAll(rest, ws), id);
      FilterSingleton(g, (x: Goal) => x.id != id);
      FilterSingleton(Reconcile(g, ws), (x: Goal) => x.id != id);
      ReconcileAllConcat(DeleteGoal([g], id), DeleteGoal(rest, id), ws);
    }
  }

  /** Reconciling two lists of goals one after the other is reconciling their concatenation. */
  lemma ReconcileAllConcat(a: seq<Goal>, b: seq<Goal>, ws: seq<Workout>)
    ensures ReconcileAll(a + b, ws) == ReconcileAll(a, ws) + ReconcileAll(b, ws)
  {
    var whole, parts := ReconcileAll(a + b, ws), ReconcileAll(a, ws) + ReconcileAll(b, ws);
    forall i | 0 <= i < |whole|
      ensures whole[i] == parts[i]
    {
      if i >= |a| {
        assert (a + b)[i] == b[i - |a|];
      }
    }
  }

  /** The add/edit form's fields. */
  datatype GoalForm = GoalForm(kind: string, targetCalories: int, deadline: Day)

  /** The document `handleSaveGoal` adds: the form, no progress yet, active, created now. */
  function NewGoal(id: string, form: GoalForm, now: Instant): (g: Goal)
    ensures g.progress == 0.0 && g.status == Active && g.currentCalories == 0 && g.createdAt == Some(now)
    ensures g.id == id && g.kind == form.kind && g.targetCalories == form.targetCalories && g.deadline == form.deadline
  {
    Goal(id, form.kind, form.targetCalories, form.deadline, Some(now), 0.0, 0, Active)
  }

  /**
   * A new goal is already what a read would make of it as long as no completed
   * workout is dated at or after its creation.
   */
  lemma NewGoalIsReconciled(id: string, form: GoalForm, now: Instant, ws: seq<Workout>)
    requires forall w :: w in ws && w.completed ==> Midnight(w.date) < now
    ensures Reconcile(NewGoal(id, form, now), ws) == NewGoal(id, form, now)
  {
  }

  /** The edit branch of `handleSaveGoal`: the edited goal takes the form's fields; nothing else changes. */
  function EditGoal(gs: seq<Goal>, id: string, form: GoalForm): (r: seq<Goal>)
    ensures |r| == |gs|
    ensures forall i :: 0 <= i < |gs| && gs[i].id == id ==>
      r[i] == gs[i].(kind := form.kind, targetCalories := form.targetCalories, deadline := form.deadline)
    ensures forall i :: 0 <= i < |gs| && gs[i].id != id ==> r[i] == gs[i]
  {
    seq(|gs|, i requires 0 <= i < |gs| =>
      if gs[i].id == id
      then gs[i].(kind := form.kind, targetCalories := form.targetCalories, deadline := form.deadline)
      else gs[i])
  }

  const LogInFirst: string := "Please log in first."

  /**
   * `handleSaveGoal` on the stored goals: refused when nobody is signed in; edits
   * the goal being edited, or adds a new one. The order in which the store lists
   * documents is not modelled, so the addition is stated on multisets.
   */
  function SaveGoal(stored: seq<Goal>, signedIn: bool, editing: Option<string>, form: GoalForm,
                    now: Instant, newId: string): (r: Result<seq<Goal>>)
    ensures r.Err? <==> !signedIn
    ensures r.Err? ==> r.message == LogInFirst
    ensures r.Ok? && editing.Some? ==> r.value == EditGoal(stored, editing.value, form)
    ensures r.Ok? && editing.None? ==> multiset(r.value) == multiset(stored) + multiset{NewGoal(newId, form, now)}
  {
    if !signedIn then Err(LogInFirst)
    else if editing.Some? then Ok(EditGoal(stored, editing.value, form))
    else Ok(stored + [NewGoal(newId, form, now)])
  }

  /** A point of the overview line chart; `labelText` is its `label` field. */
  datatype ChartPoint = ChartPoint(labelText: string, completed: nat)

  function WeekLabel(k: nat): string
    requires 1 <= k <= 4
  {
    "Week " + ["1234"[k - 1]]
  }

  /**
   * `handleReset`: unless the user is signed in and confirms, nothing changes;
   * otherwise the chart becomes four weeks, "Week 1" to "Week 4", with nothing completed.
   */
  function ResetChart(chart: seq<ChartPoint>, signedIn: bool, confirmed: bool): (r: seq<ChartPoint>)
    ensures !(signedIn && confirmed) ==> r == chart
    ensures signedIn && confirmed ==> |r| == 4
    ensures signedIn && confirmed ==> forall k :: 0 <= k < |r| ==> r[k] == ChartPoint(WeekLabel(k + 1), 0)
  {
    if !signedIn || !confirmed then chart
    else
      [ ChartPoint("Week 1", 0),
        ChartPoint("Week 2", 0),
        ChartPoint("Week 3", 0),
        ChartPoint("Week 4", 0) ]
  }

  /** The goal card's bar, drawn by the page's own progress bar, which caps at 100 but has no lower bound. */
  function GoalBarWidth(progress: real): (r: real)
    ensures r <= 100.0
    ensures progress <= 100.0 ==> r == progress
    ensures progress > 100.0 ==> r == 100.0
  {
    if progress < 100.0 then progress else 100.0
  }

  /** A reconciled goal's bar is drawn at exactly its progress. */
  lemma ReconciledBarIsProgress(g: Goal, ws: seq<Workout>)
    ensures GoalBarWidth(Reconcile(g, ws).progress) == Reconcile(g, ws).progress
  {
  }
}

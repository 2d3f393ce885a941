# Fitness tracker: aggregation and reconciliation core

This project models the computational core of a client-side fitness-tracking web
application. Every page of the application reads the user's workouts, meals and
goals from a hosted document store and re-derives its figures in memory on each
read. The model captures exactly those derivations, written as Dafny over
in-memory sequences of records:

- **Goals page** (`GoalsPage`, goals_page.dfy): the reconciliation loop of
  `fetchGoals`. For every goal it sums the calories of the completed workouts
  dated at or after the goal's creation. It turns the sum into a percentage
  capped at 100 and an achieved/active status. The module also covers adding
  a goal with its defaults, editing one, deleting one by id, splitting the list
  into active and achieved goals, resetting the overview chart, and the goal
  card's capped progress bar.
- **Progress page** (`ProgressPage`, progress_page.dfy): `calculateStats`. It
  covers the calorie total over completed workouts, the per-type counts, the
  share of the fixed twelve-workout goal, and the longest-streak scan over the
  distinct, sorted completion days. It also covers the twelve-month workout
  histogram.
- **Workout page** (`WorkoutPage`, workout_page.dfy): the per-type distribution,
  the new-workout validation and record shape, marking a workout completed, and
  deleting one.
- **Dashboard** (`DashboardPage`, dashboard_page.dfy): the completed filter, the
  calorie total, the per-type calorie bars, the five-row "recent" table, the
  capped calorie bar and the Active/Pending label.
- **Nutrition page** (`NutritionPage`, nutrition_page.dfy): the four-field
  daily summary, accumulated in place in an object (a class here). It also covers
  the empty-query guard of the food search, the field mapping of a logged meal
  and the three macro bars.
- **Progress bar component** (`ProgressBar`, progress_bar.dfy): the clamp to
  [0, 100].

Shared modules: `Records` (the workout record, left-fold sums, the completed
filter), `Grouping` (the `reduce` into a per-type accumulator object, used with
weight one for counts and with calories for the dashboard bars), `Lists`
(`filter` and `reverse`) and `Wrappers` (`Option`, `Result`).

Representation choices:

- Workout calories are `nat`, already converted to a number, a missing value
  counting as 0. Percentages, nutrients and macro grams are `real`.
- A workout's date is an integer day number.
- A goal's `createdAt` is an instant in milliseconds, because the code stores
  `new Date().toISOString()`. The goal filter compares the workout's date,
  parsed as midnight UTC, with that instant. The model keeps this comparison
  exactly. One consequence is that a workout dated on the goal's creation day is
  not credited, unless the goal was created exactly at midnight UTC
  (`GoalsPage.SameDayWorkoutNotCredited`).
- The month of a day (`getMonth` in the browser's time zone) is a parameter
  `monthOf`.
- A goal's status is a two-valued datatype, because reconciliation only ever
  writes "active" or "achieved".
- A missing meal nutrient is `None`.
- The result of the nutrition search request is passed to `HandleSearch` as a
  parameter.

## Model

| member | source | states |
|---|---|---|
| `Records.Sum` | src/pages/Progress.jsx:53-56 | the summing reduce over workouts with natural weights: no single workout's weight exceeds the total |
| `Records.Completed` | src/pages/Dashboard.jsx:38 | the completed list holds exactly the workouts whose flag is set, each as often as in the input |
| `Records.CompletedConcat` | src/pages/Progress.jsx:52 | the completed filter distributes over concatenation, so completed workouts keep their original order |
| `Records.CompletedCaloriesTotal` | src/pages/Dashboard.jsx:42 | the calorie total over the completed list equals one pass adding each completed workout's calories and nothing for the others |
| `Records.CountOfTypeIsOccurrences` | src/pages/Workout.jsx:72-75 | the count accumulated for a type equals the number of occurrences of that type among the workouts |
| `Records.SumOfTypeOnlyReadsKinds` | src/pages/Workout.jsx:112 | two lists with the same types position by position have the same per-type counts |
| `Grouping.GroupByType` | src/pages/Dashboard.jsx:46-54 | one entry per distinct type present and no other; each entry holds that type's summed weight; the entries add up to the summed weight of the list |
| `Grouping.CountByType` | src/pages/Progress.jsx:60-67 | one entry per distinct type, completed or not; each count is that type's number of occurrences; the counts add up to the list length |
| `WorkoutPage.CalculateDistribution` | src/pages/Workout.jsx:71-80 | the same distribution contract for the workout page's pie chart |
| `WorkoutPage.AddWorkout` | src/pages/Workout.jsx:84-101 | refused with "Please fill all fields" exactly when exercise, duration, calories or date is empty, signed in or not; with the fields filled and nobody signed in, nothing is stored and no message is shown; otherwise the stored workout has the exercise as type, completed false, and the other fields copied |
| `WorkoutPage.MarkCompleted` | src/pages/Workout.jsx:108-111 | same length; a workout ends up completed exactly when it was completed or has the id; every other field is unchanged, and workouts with other ids are unchanged |
| `WorkoutPage.MarkCompletedIdempotent` | src/pages/Workout.jsx:109-111 | marking the same id twice equals marking it once |
| `WorkoutPage.MarkCompletedKeepsDistribution` | src/pages/Workout.jsx:108-112 | marking keeps the list of types, so the recomputed distribution is unchanged |
| `WorkoutPage.MarkCompletedNeverLowersTotal` | src/pages/Workout.jsx:110 | marking never lowers the calorie total over completed workouts |
| `WorkoutPage.DeleteWorkout` | src/pages/Workout.jsx:121 | the result holds exactly the workouts without the id, each as often as before; none with the id remains |
| `WorkoutPage.DeleteWorkoutKeepsOrder` | src/pages/Workout.jsx:121 | deletion distributes over concatenation, so the rest keep their relative order |
| `WorkoutPage.DeleteAbsentWorkout` | src/pages/Workout.jsx:121 | deleting an id no workout has leaves the list unchanged |
| `DashboardPage.FetchUserWorkouts` | src/pages/Dashboard.jsx:31-59 | the completed list is the completed filter; the total is the completed workouts' calories; the bars are one per type with a completed workout, each that type's calories, and they add up to the total |
| `DashboardPage.Recent` | src/pages/Dashboard.jsx:170-172 | min(5, n) rows; row k is the completed workout k places from the end of the list, so the last-listed one comes first (workouts are read without any ordering and carry no timestamp, so this is the store's listing order, not recency) |
| `DashboardPage.CalorieBarWidth` | src/pages/Dashboard.jsx:97 | the width is within [0, 100]; it is total/10 up to 1000 kcal and 100 from there on |
| `DashboardPage.GoalsLabel` | src/pages/Dashboard.jsx:111 | "Active" exactly when some workout is completed, "Pending" exactly when none is |
| `NutritionPage.SummaryAccumulator.constructor` | src/pages/Nutrition.jsx:110 | the accumulator starts at all zeros |
| `NutritionPage.SummaryAccumulator.Add` | src/pages/Nutrition.jsx:103-108 | one reduce step adds the meal's four nutrients, missing ones as 0, to the fields in place |
| `NutritionPage.CalculateSummary` | src/pages/Nutrition.jsx:101-113 | each summary field is that nutrient summed over all meals, a missing value counting as 0 |
| `NutritionPage.SummaryOfNoMeals` | src/pages/Nutrition.jsx:110 | no meals give an all-zero summary |
| `NutritionPage.SummaryConcat` | src/pages/Nutrition.jsx:102-111 | the summary of two concatenated meal lists is the field-wise sum of their summaries |
| `NutritionPage.SummaryPermutation` | src/pages/Nutrition.jsx:35 | any two lists holding the same meals, each as often, give the same summary, so the order the store lists the meals in does not matter |
| `NutritionPage.SummaryOfOneMeal` | src/pages/Nutrition.jsx:104-107 | a single meal's summary is its own four nutrients, missing ones as 0 |
| `NutritionPage.HandleSearch` | src/pages/Nutrition.jsx:51-70 | an empty query changes nothing; a failed request leaves the results; otherwise the results become the returned foods, or empty when none are returned |
| `NutritionPage.AddMeal` | src/pages/Nutrition.jsx:73-84 | refused exactly when nobody is signed in; otherwise the meal copies the food's name, nf_calories, nf_protein, nf_total_carbohydrate and nf_total_fat into name, calories, protein, carbs and fat |
| `NutritionPage.LoggedMealAddsItsNutrients` | src/pages/Nutrition.jsx:77-86 | after logging a food and reading the meals back newest first, the summary grows by exactly that food's nutrients |
| `NutritionPage.MacroBar` | src/pages/Nutrition.jsx:136 | a macro bar lies within [0, 100]; it is grams/target·100 up to the target, 100 from the target on, and 0 for no intake |
| `NutritionPage.MacroBars` | src/pages/Nutrition.jsx:134-145 | three bars within [0, 100]: carbs/300·100, protein/150·100 and fat/70·100 while within their targets, 100 for a macro at or over its target, 0 for one at or below 0 |
| `ProgressBar.Clamp` | src/components/ui/Progress.jsx:2 | the clamped value is ≥ 0 and ≤ 100; a value already in [0, 100] is unchanged; below 0 gives 0; above 100 gives 100 |
| `ProgressBar.ClampIdempotent` | src/components/ui/Progress.jsx:2 | clamping twice equals clamping once |
| `ProgressBar.ClampMonotone` | src/components/ui/Progress.jsx:2 | a larger value never gives a narrower bar |
| `GoalsPage.BurnedCalories` | src/pages/Goals.jsx:331-337 | the burned calories of a goal equal the one-pass reference sum of the credited calories, and never exceed the calorie total of all completed workouts |
| `GoalsPage.BurnedCaloriesAreCredited` | src/pages/Goals.jsx:331-337 | the two filters and the reduce give exactly the calories of workouts that are completed and dated on or after the goal's creation |
| `GoalsPage.BurnedWithoutCreationTime` | src/pages/Goals.jsx:328 | a goal without a creation time is credited with every completed workout |
| `GoalsPage.SameDayWorkoutNotCredited` | src/pages/Goals.jsx:333-335 | a workout dated on the creation day is not credited unless the creation instant is exactly midnight UTC |
| `GoalsPage.GoalProgress` | src/pages/Goals.jsx:339 | progress lies within [0, 100]; it is 0 for a target ≤ 0; below the target it is burned/target·100; it is 100 exactly when the target is positive and reached |
| `GoalsPage.GoalProgressMonotone` | src/pages/Goals.jsx:339 | burning more never lowers progress |
| `GoalsPage.StatusOf` | src/pages/Goals.jsx:340 | achieved exactly from 100 percent on, active exactly below it |
| `GoalsPage.Reconcile` | src/pages/Goals.jsx:326-347 | id, type, target, deadline and creation time are kept; currentCalories is the credited calories; progress is the goal progress of the target and those calories, within [0, 100]; the goal is achieved exactly when the target is positive and reached, and exactly when progress is 100 |
| `GoalsPage.ReconcileAll` | src/pages/Goals.jsx:326-358 | one reconciled goal per stored goal, same length and order |
| `GoalsPage.FetchGoals` | src/pages/Goals.jsx:324-360 | the loop pushes exactly the reconciled goals, in order |
| `GoalsPage.MarkCompletedNeverLowersProgress` | src/pages/Goals.jsx:306-307 | re-reading the goals after a workout is marked completed never lowers a goal's progress and never un-achieves a goal |
| `GoalsPage.ActiveGoals` | src/pages/Goals.jsx:415 | exactly the active goals, each as often as stored |
| `GoalsPage.AchievedGoals` | src/pages/Goals.jsx:416 | exactly the achieved goals, each as often as stored |
| `GoalsPage.GoalsPartition` | src/pages/Goals.jsx:415-416 | the active and achieved lists together hold every goal exactly once, so their lengths add up to the total shown |
| `GoalsPage.AchievedAreReachedTargets` | src/pages/Goals.jsx:416 | after reconciliation, the achieved list holds exactly the goals whose positive target was reached |
| `GoalsPage.DeleteGoal` | src/pages/Goals.jsx:400 | the result holds exactly the goals without the id, each as often as before |
| `GoalsPage.DeleteGoalKeepsOrder` | src/pages/Goals.jsx:400 | deletion distributes over concatenation, so the rest keep their order |
| `GoalsPage.DeleteCommutesWithReconcile` | src/pages/Goals.jsx:398-401 | deleting from the reconciled list gives what a fresh read of the remaining goals would show |
| `GoalsPage.NewGoal` | src/pages/Goals.jsx:386-392 | a new goal starts with progress 0, status active, currentCalories 0 and its creation time, and takes its fields from the form |
| `GoalsPage.NewGoalIsReconciled` | src/pages/Goals.jsx:386-395 | while no completed workout is dated at or after its creation, reconciliation leaves a new goal unchanged |
| `GoalsPage.EditGoal` | src/pages/Goals.jsx:382-384 | the edited goal takes the form's type, target and deadline; everything else is unchanged |
| `GoalsPage.SaveGoal` | src/pages/Goals.jsx:378-396 | refused with "Please log in first." exactly when nobody is signed in; otherwise edits the goal being edited, or adds exactly one new goal |
| `GoalsPage.ResetChart` | src/pages/Goals.jsx:403-411 | without sign-in and confirmation the chart is unchanged; otherwise it is exactly four points, "Week 1" to "Week 4", each with completed 0 |
| `GoalsPage.GoalBarWidth` | src/pages/Goals.jsx:37 | the goal card's bar is at most 100 and equals the value up to 100 |
| `GoalsPage.ReconciledBarIsProgress` | src/pages/Goals.jsx:137 | a reconciled goal's bar is drawn at exactly its progress |
| `ProgressPage.CompletedDays` | src/pages/Progress.jsx:78-80 | one date per completed workout; a day occurs exactly when some completed workout is dated on it |
| `ProgressPage.SortedDistinct` | src/pages/Progress.jsx:76-82 | the result is strictly ascending and holds exactly the input days |
| `ProgressPage.StreakDays` | src/pages/Progress.jsx:76-82 | the streak input is strictly ascending and holds exactly the days that have a completed workout |
| `ProgressPage.LongestStreak` | src/pages/Progress.jsx:84-96 | the result is the length of some run of consecutive days, and no run is longer; an empty list gives 1 |
| `ProgressPage.StreakBounds` | src/pages/Progress.jsx:84-96 | with at least one day, 1 ≤ streak ≤ number of distinct days |
| `ProgressPage.StreakWithoutCompletedWorkouts` | src/pages/Progress.jsx:84-85 | a list with no completed workout still yields a streak of 1 |
| `ProgressPage.GoalProgress` | src/pages/Progress.jsx:71-73 | goalProgress is not capped: it exceeds 100 exactly when more than 12 workouts are completed; the card's numerator (goalProgress/100)·12 equals the completed count |
| `ProgressPage.CalculateStats` | src/pages/Progress.jsx:48-97 | an empty list leaves every statistic as it was; otherwise: the completed workouts' calories, the per-type counts adding up to the list length, completedCount/12·100, and the longest streak over the completion days |
| `ProgressPage.MonthlyData` | src/pages/Progress.jsx:100-114 | twelve points, Jan to Dec in order; each counts the workouts of that month; together they count every workout |

## Left out

- Reading and writing the document store (`getDocs`, `addDoc`, `updateDoc`, `deleteDoc`, `setDoc`), the `onSnapshot` subscription and sign-in state. The model receives the lists the store would return. Where an operation depends on a user being signed in (adding a workout, a meal or a goal, resetting the chart), that is a boolean parameter. Elsewhere a signed-out page only has empty lists.
- Negative calories: the calories field of the add-workout form is a number input with no minimum (src/pages/Workout.jsx:156-162), so a negative value can be stored. The model's calories are natural numbers. `WorkoutPage.MarkCompletedNeverLowersTotal`, `GoalsPage.MarkCompletedNeverLowersProgress` and the upper bound in `GoalsPage.BurnedCalories` rely on that. With a negative workout they do not hold.
- Interleaved asynchronous updates. Each operation is modelled as one step on the state it reads. Two `fetchGoals` runs can overlap: one from the `onSnapshot` callback (src/pages/Goals.jsx:306-307), one after `handleSaveGoal` (src/pages/Goals.jsx:395). `deleteWorkout` filters the list captured when the page last rendered (src/pages/Workout.jsx:121), while `markCompleted` updates the latest list (src/pages/Workout.jsx:108). A completion made in between can therefore disappear from the page state. The model does not capture these races.
- `fetchGoals` writes each goal back with `updateDoc`. The model returns the updated list only.
- The requests to the exercise and nutrition services. `HandleSearch` takes the service's answer as a parameter, and the exercise list does not appear.
- Date parsing and the wall clock. Dates are day numbers and creation times are millisecond instants. `toDateString` in the local time zone and daylight-saving shifts in the day difference are not modelled. The month is a parameter. The "days left" count (src/pages/Goals.jsx:142-145) is not modelled.
- Floating-point rounding, `toFixed`, the `Math.round` of displayed percentages, and `NaN` from `Number()` on text. Workout calories are already natural numbers and goal targets already integers. The add-workout form stores its fields as text, and parsing them back is not modelled.
- Grouping.GroupByType: does not state the order of the entries. `Object.entries` order depends on the key kind. The method does append in first-occurrence order.
- Grouping.GroupByType: type names that are properties every JavaScript object inherits (`__proto__`, `constructor`, `toString`, and so on) are not modelled. The model treats every type name as a fresh key. The exercise is free text (src/pages/Workout.jsx:141-148), so such a name can be stored, and the plain object accumulators (src/pages/Dashboard.jsx:46-50, src/pages/Progress.jsx:60-63, src/pages/Workout.jsx:72-75) then behave differently. With `__proto__` the sum goes to the inherited prototype and the entry disappears. With `constructor` or `toString` the stored value becomes a string. For such inputs the page's counts and bars differ from the model's. This includes the claims of `Grouping.CountByType`, `WorkoutPage.CalculateDistribution`, `DashboardPage.FetchUserWorkouts` and `ProgressPage.CalculateStats` that the entries add up to the list length or the calorie total.
- GoalsPage.SaveGoal: states the added goal on multisets, because the store's listing order is not modelled.
- `fetchChartData` and the weekly/monthly/yearly chart switch: they only read a stored document.
- `handleDeleteMeal`: a store delete followed by a re-read, with no in-memory logic.
- The add/edit form's React state and prefilling. Goals are saved from a `GoalForm` value.
- GoalsPage.SaveGoal: after an edit, the new goal's id can be an existing goal's id. The form stays mounted, and opening an edit copies the whole goal into its state, `id` included (src/pages/Goals.jsx:201-210). Closing the form does not reset that state (src/pages/Goals.jsx:454-457). So the next "Add Goal" spreads the edited goal's fields, `id` among them, into the new document (src/pages/Goals.jsx:386-392). The read puts the stored `id` field over the document id (src/pages/Goals.jsx:318). The new goal then appears under the old goal's id: `fetchGoals` writes its progress into the old goal's document, and deleting either card deletes that document and removes both cards. The model takes `newId` as a parameter and neither prevents nor describes this. Likewise, an edit saves whatever the form holds, and the model's edit writes only type, target and deadline.
- Rendering, charts, alerts, `window.location.reload` and `window.confirm`. Confirmation is a boolean parameter.
- src/pages/SignIn.jsx, src/pages/SignUp.jsx, src/pages/Onboarding.jsx, src/pages/Profile.jsx, src/components/Sidebar.jsx and src/App.jsx are not part of this model. They are authentication flows, a profile form and navigation, with no aggregation logic.

/** The workout page: adding, completing and deleting workouts and the per-type pie chart. */
module WorkoutPage {
  import opened Lists
  import opened Records
  import opened Grouping

  /**
   * `calculateDistribution`: one entry per distinct type, holding the number of
   * workouts of that type, completed or not; the counts add up to the list length.
   */
  method CalculateDistribution(data: seq<Workout>) returns (distribution: seq<Entry>)
    ensures DistinctNames(distribution)
    ensures forall t :: t in Names(distribution) <==> t in Kinds(data)
    ensures forall j :: 0 <= j < |distribution| ==>
      distribution[j].value == multiset(Kinds(data))[distribution[j].name]
    ensures SumValues(distribution) == |data|
  {
    distribution := CountByType(data);
  }

  /** The text fields of the add-workout form, as typed. */
  datatype WorkoutForm = WorkoutForm(exercise: string, duration: string, calories: string, date: string)

  /** The document `handleAddWorkout` stores; its fields are still the form's strings. */
  datatype NewWorkout = NewWorkout(kind: string, duration: string, calories: string, date: string, completed: bool)

  const FillAllFields: string := "Please fill all fields"

  /**
   * What `handleAddWorkout` ends in: the form refused with a message, nothing
   * stored and nothing shown (the store call fails inside the `try` when nobody
   * is signed in), or a stored workout.
   */
  datatype AddOutcome = Refused(message: string) | NotStored | Stored(record: NewWorkout)

  /**
   * `handleAddWorkout`: refuses the form when any field is empty, whether or not
   * anyone is signed in; stores nothing, silently, when nobody is signed in; and
   * otherwise stores a not-yet-completed workout whose type is the selected exercise.
   */
  function AddWorkout(signedIn: bool, form: WorkoutForm): (r: AddOutcome)
    ensures r.Refused? <==> form.exercise == "" || form.duration == "" || form.calories == "" || form.date == ""
    ensures r.Refused? ==> r.message == FillAllFields
    ensures r.NotStored? <==> !r.Refused? && !signedIn
    ensures r.Stored? ==> r.record.kind == form.exercise && !r.record.completed
    ensures r.Stored? ==> r.record.duration == form.duration && r.record.calories == form.calories && r.record.date == form.date
  {
    if form.exercise == "" || form.duration == "" || form.calories == "" || form.date == "" then
      Refused(FillAllFields)
    else if !signedIn then
      NotStored
    else
      Stored(NewWorkout(form.exercise, form.duration, form.calories, form.date, false))
  }

  /**
   * `markCompleted`'s `map`: the workouts with the given id become completed;
   * every other field of every workout, and the list's length and order, stay as they were.
   */
  function MarkCompleted(ws: seq<Workout>, id: string): (r: seq<Workout>)
    ensures |r| == |ws|
    ensures forall i :: 0 <= i < |ws| ==> r[i].completed == (ws[i].completed || ws[i].id == id)
    ensures forall i :: 0 <= i < |ws| ==>
      r[i].id == ws[i].id && r[i].kind == ws[i].kind && r[i].duration == ws[i].duration &&
      r[i].calories == ws[i].calories && r[i].date == ws[i].date
    ensures forall i :: 0 <= i < |ws| && ws[i].id != id ==> r[i] == ws[i]
  {
    seq(|ws|, i requires 0 <= i < |ws| => if ws[i].id == id then ws[i].(completed := true) else ws[i])
  }

  /** Marking the same workout twice is the same as marking it once. */
  lemma MarkCompletedIdempotent(ws: seq<Workout>, id: string)
    ensures MarkCompleted(MarkCompleted(ws, id), id) == MarkCompleted(ws, id)
  {
  }

  /** Marking a workout completed leaves the type distribution unchanged. */
  lemma MarkCompletedKeepsDistribution(ws: seq<Workout>, id: string, t: string)
    ensures Kinds(MarkCompleted(ws, id)) == Kinds(ws)
    ensures SumOfType(MarkCompleted(ws, id), t, One) == SumOfType(ws, t, One)
  {
    SumOfTypeOnlyReadsKinds(MarkCompleted(ws, id), ws, t);
  }

  /** Marking a workout completed never lowers the calories burned over completed workouts. */
  lemma MarkCompletedNeverLowersTotal(ws: seq<Workout>, id: string)
    ensures Sum(Completed(ws), Calories) <= Sum(Completed(MarkCompleted(ws, id)), Calories)
  {
    var marked := MarkCompleted(ws, id);
    forall i | 0 <= i < |ws|
      ensures CompletedCalories(ws[i]) <= CompletedCalories(marked[i])
    {
    }
    SumPointwiseLe(ws, marked, CompletedCalories, CompletedCalories);
    CompletedCaloriesTotal(ws);
    CompletedCaloriesTotal(marked);
  }

  /** `deleteWorkout`'s `filter`: exactly the workouts with the given id are removed. */
  function DeleteWorkout(ws: seq<Workout>, id: string): (r: seq<Workout>)
    ensures forall w :: w in r <==> w in ws && w.id != id
    ensures forall w :: multiset(r)[w] == if w.id == id then 0 else multiset(ws)[w]
  {
    Filter(ws, (w: Workout) => w.id != id)
  }

  /** The workouts that remain keep their relative order. */
  lemma DeleteWorkoutKeepsOrder(a: seq<Workout>, b: seq<Workout>, id: string)
    ensures DeleteWorkout(a + b, id) == DeleteWorkout(a, id) + DeleteWorkout(b, id)
  {
    FilterConcat(a, b, (w: Workout) => w.id != id);
  }

  /** Deleting an id that no workout has leaves the list as it was. */
  lemma DeleteAbsentWorkout(ws: seq<Workout>, id: string)
    requires forall i :: 0 <= i < |ws| ==> ws[i].id != id
    ensures DeleteWorkout(ws, id) == ws
  {
    FilterKeepsAll(ws, (w: Workout) => w.id != id);
  }
}

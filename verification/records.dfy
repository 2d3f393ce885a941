/** The workout record that every page reads, and the aggregations the pages share. */
module Records {
  import opened Lists

  /** A calendar day, counted in days since 1970-01-01. */
  type Day = int

  /**
   * A stored workout document. `kind` is the document's `type` field, and
   * `calories` is already a number, a missing value being 0.
   */
  datatype Workout = Workout(
    id: string,
    kind: string,
    duration: string,
    calories: nat,
    date: Day,
    completed: bool)

  /** Per-workout weights handed to the sums below. */
  function One(w: Workout): nat { 1 }

  function Calories(w: Workout): nat { w.calories }

  function CompletedCalories(w: Workout): nat { if w.completed then w.calories else 0 }

  function IsCompleted(w: Workout): bool { w.completed }

  /**
   * The summing `reduce`, a left fold starting from 0. With natural weights every
   * workout's weight is at most the total.
   */
  function Sum(ws: seq<Workout>, weight: Workout -> nat): (r: nat)
    ensures forall i :: 0 <= i < |ws| ==> weight(ws[i]) <= r
  {
    if ws == [] then 0 else Sum(ws[..|ws| - 1], weight) + weight(ws[|ws| - 1])
  }

  /** The summed weight of the workouts of type `t`, folded left like `Sum`. */
  function SumOfType(ws: seq<Workout>, t: string, weight: Workout -> nat): nat
  {
    if ws == [] then 0
    else SumOfType(ws[..|ws| - 1], t, weight) + (if ws[|ws| - 1].kind == t then weight(ws[|ws| - 1]) else 0)
  }

  /** The types of the workouts, in list order. */
  function Kinds(ws: seq<Workout>): seq<string>
  {
    seq(|ws|, i requires 0 <= i < |ws| => ws[i].kind)
  }

  /** The completed workouts, in their original order. */
  function Completed(ws: seq<Workout>): (r: seq<Workout>)
    ensures |r| <= |ws|
    ensures forall w :: w in r <==> w in ws && w.completed
    ensures forall w :: multiset(r)[w] == if w.completed then multiset(ws)[w] else 0
  {
    Filter(ws, IsCompleted)
  }

  /** A fold over a concatenation is the sum of the folds. */
  lemma {:induction false} SumConcat(a: seq<Workout>, b: seq<Workout>, weight: Workout -> nat)
    ensures Sum(a + b, weight) == Sum(a, weight) + Sum(b, weight)
  {
    if b == [] {
      assert a + b == a;
    } else {
      var n := |b| - 1;
      assert (a + b)[..|a + b| - 1] == a + b[..n];
      SumConcat(a, b[..n], weight);
    }
  }

  /** Counting with weight one gives the length of the list. */
  lemma {:induction false} SumOfOnes(ws: seq<Workout>)
    ensures Sum(ws, One) == |ws|
  {
    if ws != [] {
      SumOfOnes(ws[..|ws| - 1]);
    }
  }

  /** Counting workouts of type `t` gives the number of occurrences of `t` among the types. */
  lemma {:induction false} CountOfTypeIsOccurrences(ws: seq<Workout>, t: string)
    ensures SumOfType(ws, t, One) == multiset(Kinds(ws))[t]
  {
    if ws != [] {
      var n := |ws| - 1;
      CountOfTypeIsOccurrences(ws[..n], t);
      assert Kinds(ws) == Kinds(ws[..n]) + [ws[n].kind];
    }
  }

  /** Only the types of the workouts matter to the per-type sums of a weight. */
  lemma {:induction false} SumOfTypeOnlyReadsKinds(a: seq<Workout>, b: seq<Workout>, t: string)
    requires |a| == |b|
    requires forall i :: 0 <= i < |a| ==> a[i].kind == b[i].kind
    ensures SumOfType(a, t, One) == SumOfType(b, t, One)
  {
    if a != [] {
      SumOfTypeOnlyReadsKinds(a[..|a| - 1], b[..|b| - 1], t);
    }
  }

  /** A type that no workout has accumulates nothing. */
  lemma {:induction false} SumOfAbsentType(ws: seq<Workout>, t: string, weight: Workout -> nat)
    requires t !in Kinds(ws)
    ensures SumOfType(ws, t, weight) == 0
  {
    if ws != [] {
      var n := |ws| - 1;
      assert Kinds(ws) == Kinds(ws[..n]) + [ws[n].kind];
      SumOfAbsentType(ws[..n], t, weight);
    }
  }

  /** A fold whose every term is no larger gives no larger a total. */
  lemma {:induction false} SumPointwiseLe(a: seq<Workout>, b: seq<Workout>, wa: Workout -> nat, wb: Workout -> nat)
    requires |a| == |b|
    requires forall i :: 0 <= i < |a| ==> wa(a[i]) <= wb(b[i])
    ensures Sum(a, wa) <= Sum(b, wb)
  {
    if a != [] {
      SumPointwiseLe(a[..|a| - 1], b[..|b| - 1], wa, wb);
    }
  }

  /** The completed workouts of a concatenation are those of each part, in order. */
  lemma CompletedConcat(a: seq<Workout>, b: seq<Workout>)
    ensures Completed(a + b) == Completed(a) + Completed(b)
  {
    FilterConcat(a, b, IsCompleted);
  }

  /**
   * The calorie total over the completed list equals a single pass that adds
   * the calories of each completed workout and nothing for the others.
   */
  lemma {:induction false} CompletedCaloriesTotal(ws: seq<Workout>)
    ensures Sum(Completed(ws), Calories) == Sum(ws, CompletedCalories)
  {
    if ws != [] {
      var n := |ws| - 1;
      assert ws == ws[..n] + [ws[n]];
      CompletedCaloriesTotal(ws[..n]);
      CompletedConcat(ws[..n], [ws[n]]);
      FilterSingleton(ws[n], IsCompleted);
      SumConcat(Completed(ws[..n]), Completed([ws[n]]), Calories);
      if ws[n].completed {
        assert Sum([ws[n]], Calories) == ws[n].calories;
      } else {
        assert Completed([ws[n]]) == [];
      }
    }
  }
}

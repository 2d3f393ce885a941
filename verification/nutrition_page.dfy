/** The nutrition page: the food search guard, logging a meal and the daily macro summary. */
module NutritionPage {
  import opened Wrappers
  import opened ProgressBar

  /** A stored meal. A nutrient the document lacks is `None`. */
  datatype Meal = Meal(
    id: string,
    name: string,
    calories: Option<real>,
    carbs: Option<real>,
    protein: Option<real>,
    fat: Option<real>)

  /** A food item as the nutrition search service describes it. */
  datatype Food = Food(
    foodName: string,
    nfCalories: Option<real>,
    nfProtein: Option<real>,
    nfTotalCarbohydrate: Option<real>,
    nfTotalFat: Option<real>)

  /** The four running totals of the daily summary. */
  datatype Totals = Totals(calories: real, carbs: real, protein: real, fat: real)

  const Zero: Totals := Totals(0.0, 0.0, 0.0, 0.0)

  function Plus(a: Totals, b: Totals): Totals
  {
    Totals(a.calories + b.calories, a.carbs + b.carbs, a.protein + b.protein, a.fat + b.fat)
  }

  /** A missing nutrient counts as zero. */
  function OrZero(x: Option<real>): real
  {
    if x.Some? then x.value else 0.0
  }

  /** Field selectors, one per nutrient. */
  function CaloriesField(m: Meal): Option<real> { m.calories }

  function CarbsField(m: Meal): Option<real> { m.carbs }

  function ProteinField(m: Meal): Option<real> { m.protein }

  function FatField(m: Meal): Option<real> { m.fat }

  /** The sum of one nutrient over the meals, folded left, a missing value counting as zero. */
  function FieldSum(meals: seq<Meal>, field: Meal -> Option<real>): real
  {
    if meals == [] then 0.0
    else FieldSum(meals[..|meals| - 1], field) + OrZero(field(meals[|meals| - 1]))
  }

  /** The summary `calculateSummary` is meant to produce: each field summed on its own. */
  function Summary(meals: seq<Meal>): Totals
  {
    Totals(
      FieldSum(meals, CaloriesField),
      FieldSum(meals, CarbsField),
      FieldSum(meals, ProteinField),
      FieldSum(meals, FatField))
  }

  /** The contribution of one meal to the summary. */
  function MealTotals(m: Meal): Totals
  {
    Totals(OrZero(m.calories), OrZero(m.carbs), OrZero(m.protein), OrZero(m.fat))
  }

  /** The `acc` object of `calculateSummary`, whose four fields each reduce step updates in place. */
  class SummaryAccumulator {
    var calories: real
    var carbs: real
    var protein: real
    var fat: real

    function Value(): Totals
      reads this
    {
      Totals(calories, carbs, protein, fat)
    }

    /** Starts with all four totals at zero. */
    constructor ()
      ensures Value() == Zero
    {
      calories, carbs, protein, fat := 0.0, 0.0, 0.0, 0.0;
    }

    /** One step of the summing `reduce`: each field grows by the meal's nutrient, a missing one counting as zero. */
    method Add(m: Meal)
      modifies this
      ensures Value() == Plus(old(Value()), MealTotals(m))
    {
      calories := calories + OrZero(m.calories);
      carbs := carbs + OrZero(m.carbs);
      protein := protein + OrZero(m.protein);
      fat := fat + OrZero(m.fat);
    }
  }

  /** `calculateSummary`: each field of the result is that nutrient summed over all meals. */
  method CalculateSummary(meals: seq<Meal>) returns (total: Totals)
    ensures total == Summary(meals)
  {
    var acc := new SummaryAccumulator();
    for i := 0 to |meals|
      invariant acc.Value() == Summary(meals[..i])
    {
      assert meals[..i + 1][..i] == meals[..i];
      acc.Add(meals[i]);
    }
    assert meals[..|meals|] == meals;
    total := acc.Value();
  }

  /** A field sum over a concatenation is the sum of the field sums. */
  lemma {:induction false} FieldSumConcat(a: seq<Meal>, b: seq<Meal>, field: Meal -> Option<real>)
    ensures FieldSum(a + b, field) == FieldSum(a, field) + FieldSum(b, field)
  {
    if b == [] {
      assert a + b == a;
    } else {
      var n := |b| - 1;
      assert (a + b)[..|a + b| - 1] == a + b[..n];
      FieldSumConcat(a, b[..n], field);
    }
  }

  /** No meals give an all-zero summary. */
  lemma SummaryOfNoMeals()
    ensures Summary([]) == Zero
  {
  }

  /** The summary is additive: two lists of meals together sum to the field-wise sum of their summaries. */
  lemma SummaryConcat(a: seq<Meal>, b: seq<Meal>)
    ensures Summary(a + b) == Plus(Summary(a), Summary(b))
  {
    FieldSumConcat(a, b, CaloriesField);
    FieldSumConcat(a, b, CarbsField);
    FieldSumConcat(a, b, ProteinField);
    FieldSumConcat(a, b, FatField);
  }

  /**
   * The summary does not depend on the order in which the meals are listed: any
   * rearrangement of the same meals gives the same totals.
   */
  lemma {:induction false} SummaryPermutation(a: seq<Meal>, b: seq<Meal>)
    requires multiset(a) == multiset(b)
    ensures Summary(a) == Summary(b)
    decreases |a|
  {
    if a == [] {
      assert |b| == |multiset(b)| == 0;
    } else {
      var n := |a| - 1;
      assert a[n] in multiset(b);
      var i :| 0 <= i < |b| && b[i] == a[n];
      RemoveMatching(a, b, i);
      SummaryPermutation(a[..n], b[..i] + b[i + 1..]);
      SummaryWithout(a, n);
      SummaryWithout(b, i);
    }
  }

  /** Taking the same meal out of two rearrangements of each other leaves two rearrangements. */
  lemma RemoveMatching(a: seq<Meal>, b: seq<Meal>, i: nat)
    requires a != [] && i < |b| && a[|a| - 1] == b[i]
    requires multiset(a) == multiset(b)
    ensures multiset(a[..|a| - 1]) == multiset(b[..i] + b[i + 1..])
  {
    var n, m := |a| - 1, b[i];
    assert a == a[..n] + [m];
    assert b == b[..i] + [m] + b[i + 1..];
    var left, right := multiset(a[..n]), multiset(b[..i] + b[i + 1..]);
    assert left + multiset{m} == right + multiset{m};
    assert left == left + multiset{m} - multiset{m};
    assert right == right + multiset{m} - multiset{m};
  }

  /** The summary is the summary without one meal, plus that meal's nutrients. */
  lemma SummaryWithout(b: seq<Meal>, i: nat)
    requires i < |b|
    ensures Summary(b) == Plus(Summary(b[..i] + b[i + 1..]), MealTotals(b[i]))
  {
    var before, after := b[..i], b[i + 1..];
    assert b == before + [b[i]] + after;
    SummaryOfOneMeal(b[i]);
    SummaryConcat(before + [b[i]], after);
    SummaryConcat(before, [b[i]]);
    SummaryConcat(before, after);
  }

  /** A single meal contributes its own nutrients. */
  lemma SummaryOfOneMeal(m: Meal)
    ensures Summary([m]) == MealTotals(m)
  {
    assert [m][..0] == [];
    assert FieldSum([m], CaloriesField) == OrZero(m.calories);
    assert FieldSum([m], CarbsField) == OrZero(m.carbs);
    assert FieldSum([m], ProteinField) == OrZero(m.protein);
    assert FieldSum([m], FatField) == OrZero(m.fat);
  }

  /**
   * `handleSearch`: nothing happens for an empty query. Otherwise the service's
   * answer (`response`; the request itself is not modelled) replaces the results,
   * or empty when the answer has no foods, unless the request failed, which leaves them alone.
   */
  function HandleSearch(query: string, results: seq<Food>, response: Result<Option<seq<Food>>>): (r: seq<Food>)
    ensures query == "" ==> r == results
    ensures query != "" && response.Err? ==> r == results
    ensures query != "" && response.Ok? && response.value.Some? ==> r == response.value.value
    ensures query != "" && response.Ok? && response.value.None? ==> r == []
  {
    if query == "" then results
    else match response
      case Err(_) => results
      case Ok(foods) => if foods.Some? then foods.value else []
  }

  const LogInFirst: string := "Please log in first"

  /**
   * `handleAddMeal`: refused when nobody is signed in; otherwise the stored meal
   * copies the food's name, calories, protein, carbohydrate and fat.
   */
  function AddMeal(signedIn: bool, food: Food, id: string): (r: Result<Meal>)
    ensures r.Err? <==> !signedIn
    ensures r.Err? ==> r.message == LogInFirst
    ensures r.Ok? ==> r.value.id == id && r.value.name == food.foodName
    ensures r.Ok? ==> r.value.calories == food.nfCalories && r.value.protein == food.nfProtein
    ensures r.Ok? ==> r.value.carbs == food.nfTotalCarbohydrate && r.value.fat == food.nfTotalFat
  {
    if !signedIn then Err(LogInFirst)
    else Ok(Meal(id, food.foodName, food.nfCalories, food.nfTotalCarbohydrate, food.nfProtein, food.nfTotalFat))
  }

  /**
   * After a meal is logged the list is read back newest first, and the summary
   * grows by exactly the food's nutrients.
   */
  lemma LoggedMealAddsItsNutrients(food: Food, id: string, meals: seq<Meal>)
    ensures AddMeal(true, food, id).Ok?
    ensures Summary([AddMeal(true, food, id).value] + meals) ==
      Plus(Totals(OrZero(food.nfCalories), OrZero(food.nfTotalCarbohydrate), OrZero(food.nfProtein), OrZero(food.nfTotalFat)), Summary(meals))
  {
    var m := AddMeal(true, food, id).value;
    SummaryConcat([m], meals);
    SummaryOfOneMeal(m);
  }

  /** The daily macro targets behind the three bars, in grams. */
  const CarbsTarget: real := 300.0
  const ProteinTarget: real := 150.0
  const FatTarget: real := 70.0

  /** A macro bar: the intake as a percentage of its target, as the clamping progress bar draws it. */
  function MacroBar(grams: real, target: real): (r: real)
    requires target > 0.0
    ensures 0.0 <= r <= 100.0
    ensures 0.0 <= grams <= target ==> r == grams / target * 100.0
    ensures grams >= target ==> r == 100.0
    ensures grams <= 0.0 ==> r == 0.0
  {
    Clamp((grams / target) * 100.0)
  }

  /** The carbohydrate, protein and fat bars of the daily overview, in that order. */
  function MacroBars(t: Totals): (r: seq<real>)
    ensures |r| == 3
    ensures forall k :: 0 <= k < 3 ==> 0.0 <= r[k] <= 100.0
    ensures 0.0 <= t.carbs <= CarbsTarget ==> r[0] == t.carbs / 3.0
    ensures 0.0 <= t.protein <= ProteinTarget ==> r[1] == t.protein / 1.5
    ensures 0.0 <= t.fat <= FatTarget ==> r[2] == t.fat / 0.7
    ensures t.carbs >= CarbsTarget ==> r[0] == 100.0
    ensures t.protein >= ProteinTarget ==> r[1] == 100.0
    ensures t.fat >= FatTarget ==> r[2] == 100.0
    ensures t.carbs <= 0.0 ==> r[0] == 0.0
    ensures t.protein <= 0.0 ==> r[1] == 0.0
    ensures t.fat <= 0.0 ==> r[2] == 0.0
  {
    [MacroBar(t.carbs, CarbsTarget), MacroBar(t.protein, ProteinTarget), MacroBar(t.fat, FatTarget)]
  }
}

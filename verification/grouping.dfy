/**
 * Grouping workouts by type: the `reduce` into an object keyed by type, then the
 * conversion of that object into one chart entry per key.
 */
module Grouping {
  import opened Records

  /** One chart entry: a workout type and its accumulated value. */
  datatype Entry = Entry(name: string, value: nat)

  /** The names of the entries, in chart order. */
  function Names(chart: seq<Entry>): seq<string>
  {
    seq(|chart|, j requires 0 <= j < |chart| => chart[j].name)
  }

  /** The sum of the entry values. */
  function SumValues(chart: seq<Entry>): nat
  {
    if chart == [] then 0 else SumValues(chart[..|chart| - 1]) + chart[|chart| - 1].value
  }

  /** No type has two entries. */
  predicate DistinctNames(chart: seq<Entry>)
  {
    forall j, k :: 0 <= j < k < |chart| ==> chart[j].name != chart[k].name
  }

  lemma {:induction false} SumValuesUpdate(chart: seq<Entry>, j: nat, e: Entry)
    requires j < |chart|
    ensures SumValues(chart[j := e]) + chart[j].value == SumValues(chart) + e.value
  {
    var n := |chart| - 1;
    if j < n {
      assert chart[j := e][..n] == chart[..n][j := e];
      SumValuesUpdate(chart[..n], j, e);
    } else {
      assert chart[j := e][..n] == chart[..n];
    }
  }

  /** `chart` is the grouping of `ws` by type under `weight`. */
  ghost predicate Groups(chart: seq<Entry>, ws: seq<Workout>, weight: Workout -> nat)
  {
    && DistinctNames(chart)
    && (forall t :: t in Names(chart) <==> t in Kinds(ws))
    && (forall j :: 0 <= j < |chart| ==> chart[j].value == SumOfType(ws, chart[j].name, weight))
    && SumValues(chart) == Sum(ws, weight)
  }

  /** Appending one workout adds its weight to its own type and to the total only. */
  lemma AppendOne(ws: seq<Workout>, item: Workout, weight: Workout -> nat)
    ensures Kinds(ws + [item]) == Kinds(ws) + [item.kind]
    ensures Sum(ws + [item], weight) == Sum(ws, weight) + weight(item)
    ensures forall t :: SumOfType(ws + [item], t, weight) == SumOfType(ws, t, weight) + (if item.kind == t then weight(item) else 0)
  {
    assert (ws + [item])[..|ws|] == ws;
  }

  /** A workout of a type not yet in the chart gets a new entry at the end. */
  lemma {:induction false} NewTypeStep(chart: seq<Entry>, data: seq<Workout>, i: nat, weight: Workout -> nat)
    requires i < |data|
    requires Groups(chart, data[..i], weight)
    requires data[i].kind !in Names(chart)
    ensures Groups(chart + [Entry(data[i].kind, weight(data[i]))], data[..i + 1], weight)
  {
    var ws, item := data[..i], data[i];
    assert data[..i + 1] == ws + [item];
    var e := Entry(item.kind, weight(item));
    AppendOne(ws, item, weight);
    SumOfAbsentType(ws, item.kind, weight);
    forall j | 0 <= j < |chart|
      ensures chart[j].name != item.kind
    {
      assert Names(chart)[j] == chart[j].name;
    }
    assert (chart + [e])[..|chart|] == chart;
    assert Names(chart + [e]) == Names(chart) + [item.kind];
  }

  /** A workout of a type already in the chart adds its weight to that entry. */
  lemma {:induction false} KnownTypeStep(chart: seq<Entry>, data: seq<Workout>, i: nat, weight: Workout -> nat, j: nat)
    requires i < |data|
    requires Groups(chart, data[..i], weight)
    requires j < |chart| && chart[j].name == data[i].kind
    ensures Groups(chart[j := Entry(data[i].kind, chart[j].value + weight(data[i]))], data[..i + 1], weight)
  {
    var ws, item := data[..i], data[i];
    assert data[..i + 1] == ws + [item];
    var e := Entry(item.kind, chart[j].value + weight(item));
    AppendOne(ws, item, weight);
    assert Names(chart)[j] == item.kind;
    SumValuesUpdate(chart, j, e);
    assert Names(chart[j := e]) == Names(chart);
  }

  /**
   * Looks up the entry of a type: its index, or the length of the chart when the
   * type has no entry yet.
   */
  method FindEntry(chart: seq<Entry>, kind: string) returns (j: nat)
    ensures j <= |chart|
    ensures j < |chart| ==> chart[j].name == kind
    ensures j == |chart| ==> kind !in Names(chart)
  {
    j := 0;
    while j < |chart| && chart[j].name != kind
      invariant j <= |chart|
      invariant forall k :: 0 <= k < j ==> chart[k].name != kind
    {
      j := j + 1;
    }
    if j == |chart| {
      forall k | 0 <= k < |chart|
        ensures Names(chart)[k] != kind
      {
        assert Names(chart)[k] == chart[k].name;
      }
    }
  }

  /**
   * Groups `data` by type. Each distinct type gets exactly one entry whose value
   * is the summed `weight` of that type's workouts, and the values add up to the
   * summed weight of the whole list.
   */
  method GroupByType(data: seq<Workout>, weight: Workout -> nat) returns (chart: seq<Entry>)
    ensures DistinctNames(chart)
    ensures forall t :: t in Names(chart) <==> t in Kinds(data)
    ensures forall j :: 0 <= j < |chart| ==> chart[j].value == SumOfType(data, chart[j].name, weight)
    ensures SumValues(chart) == Sum(data, weight)
  {
    chart := [];
    var i := 0;
    while i < |data|
      invariant 0 <= i <= |data|
      invariant Groups(chart, data[..i], weight)
    {
      var item := data[i];
      var j := FindEntry(chart, item.kind);
      if j == |chart| {
        NewTypeStep(chart, data, i, weight);
        chart := chart + [Entry(item.kind, weight(item))];
      } else {
        KnownTypeStep(chart, data, i, weight, j);
        chart := chart[j := Entry(item.kind, chart[j].value + weight(item))];
      }
      i := i + 1;
    }
    assert data[..i] == data;
  }

  /**
   * The counting instance, where each workout adds one to its type: one entry
   * per distinct type, completed or not, holding that type's number of
   * occurrences; the counts add up to the list length.
   */
  method CountByType(data: seq<Workout>) returns (distribution: seq<Entry>)
    ensures DistinctNames(distribution)
    ensures forall t :: t in Names(distribution) <==> t in Kinds(data)
    ensures forall j :: 0 <= j < |distribution| ==>
      distribution[j].value == multiset(Kinds(data))[distribution[j].name]
    ensures SumValues(distribution) == |data|
  {
    distribution := GroupByType(data, One);
    forall j | 0 <= j < |distribution|
      ensures distribution[j].value == multiset(Kinds(data))[distribution[j].name]
    {
      CountOfTypeIsOccurrences(data, distribution[j].name);
    }
    SumOfOnes(data);
  }
}

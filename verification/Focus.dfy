/** FOCUS charges and exact sums of their costs
    (packages/connectors/focus/src/constat_focus/loader.py). */
module Focus {
  import opened Wrappers

  type Tags = map<string, string>

  /** Billed and amortized amounts, in exact arithmetic. */
  datatype Cost = Cost(billed: real, amortized: real)

  const ZERO := Cost(0.0, 0.0)

  function Plus(a: Cost, b: Cost): Cost { Cost(a.billed + b.billed, a.amortized + b.amortized) }

  function Scale(a: Cost, weight: real): Cost { Cost(a.billed * weight, a.amortized * weight) }

  function Sum(costs: seq<Cost>): Cost {
    if costs == [] then ZERO else Plus(Sum(costs[..|costs| - 1]), costs[|costs| - 1])
  }

  /** What a charge says about where it comes from; nothing is computed from it. */
  datatype Labels = Labels(
    region: Option<string>, pricingCategory: Option<string>, resourceId: Option<string>, subAccountId: Option<string>)

  const NO_LABELS := Labels(None, None, None, None)

  /** One charge. `tags` and `perRowCosts` have one element per input row. */
  datatype Charge = Charge(
    account: string,
    service: string,
    canonical: Option<string>,
    periodStart: int,
    periodEnd: int,
    cost: Cost,
    tags: seq<Tags>,
    perRowCosts: seq<Cost>,
    currency: string,
    labels: Labels)

  /** `service_canonical or service`: an empty canonical counts as none. */
  function ServiceKey(c: Charge): string {
    if c.canonical.Some? && c.canonical.value != "" then c.canonical.value else c.service
  }

  /** What the loader builds from one input row: one tag dict, possibly empty, and one cost. */
  function Loaded(account: string, service: string, canonical: Option<string>, periodStart: int, periodEnd: int,
                  cost: Cost, tags: Tags, currency: string, labels: Labels): (c: Charge)
    ensures |c.tags| == |c.perRowCosts| && Sum(c.perRowCosts) == c.cost
  {
    assert Sum([cost]) == Plus(Sum([]), cost);
    Charge(account, service, canonical, periodStart, periodEnd, cost, [tags], [cost], currency, labels)
  }

  lemma {:induction false} SumConcat(a: seq<Cost>, b: seq<Cost>)
    ensures Sum(a + b) == Plus(Sum(a), Sum(b))
  {
    if b == [] {
      assert a + b == a;
    } else {
      assert (a + b)[..|a + b| - 1] == a + b[..|b| - 1];
      SumConcat(a, b[..|b| - 1]);
    }
  }

  // ---------------------------------------------------------------- counting values

  /** Values in order of first appearance. */
  function DistinctOf(values: seq<string>): seq<string> {
    if values == [] then []
    else
      var front, v := DistinctOf(values[..|values| - 1]), values[|values| - 1];
      if v in front then front else front + [v]
  }

  function Occurrences(values: seq<string>, v: string): nat {
    if values == [] then 0
    else Occurrences(values[..|values| - 1], v) + if values[|values| - 1] == v then 1 else 0
  }

  lemma {:induction false} AbsentHasNoOccurrence(values: seq<string>, v: string)
    ensures v in DistinctOf(values) <==> Occurrences(values, v) > 0
  {
    if values != [] {
      AbsentHasNoOccurrence(values[..|values| - 1], v);
    }
  }

  lemma {:induction false} DistinctIsEmpty(values: seq<string>)
    ensures DistinctOf(values) == [] <==> values == []
  {
    if values != [] {
      DistinctIsEmpty(values[..|values| - 1]);
    }
  }

  lemma {:induction false} DistinctIsDistinct(values: seq<string>)
    ensures forall i, j :: 0 <= i < j < |DistinctOf(values)| ==> DistinctOf(values)[i] != DistinctOf(values)[j]
  {
    if values != [] {
      DistinctIsDistinct(values[..|values| - 1]);
    }
  }
}

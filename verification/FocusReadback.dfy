/** Per-row tags and costs read back from the tag table, and what the whole cost pipeline
    keeps. Sources: apps/api/src/constat_api/insights/runner.py
    (`_load_per_row_tags_for`, `_load_per_row_costs_for`, `_focus_charge_to_pydantic`),
    repositories/focus_charges.py, and the aggregator and resolver packages. */
module FocusReadback {
  import opened Wrappers
  import opened Focus
  import opened FocusAggregator
  import opened FocusStorage
  import opened FocusStorageLaws
  import opened Chargeback
  import opened ChargebackLaws

  // ---------------------------------------------------------------- the two loaders

  /** One past the largest input-row index the charge has in the table. */
  ghost predicate RowCountIs(rows: set<TagRow>, id: nat, n: nat) {
    && (forall r :: r in rows && r.charge == id ==> r.rowIndex < n)
    && (n > 0 ==> exists r :: r in rows && r.charge == id && r.rowIndex == n - 1)
  }

  ghost predicate HasRow(rows: set<TagRow>, id: nat, i: nat) {
    exists r :: r in rows && r.charge == id && r.rowIndex == i
  }

  /** The keys of input row `i`, each with the value of one of its table rows. */
  ghost predicate DictIs(rows: set<TagRow>, id: nat, i: nat, d: Tags) {
    && (forall r :: r in rows && r.charge == id && r.rowIndex == i ==> r.key in d)
    && (forall k :: k in d ==> exists r :: r in rows && r.charge == id && r.rowIndex == i && r.key == k && r.value == d[k])
  }

  /** The cost on one of the table rows of input row `i`, or zero if it has none. */
  ghost predicate CostIs(rows: set<TagRow>, id: nat, i: nat, c: Cost) {
    if HasRow(rows, id, i) then exists r :: r in rows && r.charge == id && r.rowIndex == i && r.cost == c else c == ZERO
  }

  ghost predicate TagsLoaded(rows: set<TagRow>, id: nat, dicts: seq<Tags>) {
    RowCountIs(rows, id, |dicts|) && forall i :: 0 <= i < |dicts| ==> DictIs(rows, id, i, dicts[i])
  }

  ghost predicate CostsLoaded(rows: set<TagRow>, id: nat, costs: seq<Cost>) {
    RowCountIs(rows, id, |costs|) && forall i :: 0 <= i < |costs| ==> CostIs(rows, id, i, costs[i])
  }

  ghost predicate GroupedIs(rows: set<TagRow>, id: nat, grouped: map<nat, Tags>) {
    && (forall i :: i in grouped ==> HasRow(rows, id, i) && DictIs(rows, id, i, grouped[i]))
    && (forall r :: r in rows && r.charge == id ==> r.rowIndex in grouped)
  }

  /** One fetched row put where it belongs. */
  function Group(grouped: map<nat, Tags>, r: TagRow): map<nat, Tags> {
    var d := if r.rowIndex in grouped then grouped[r.rowIndex] else map[];
    grouped[r.rowIndex := d[r.key := r.value]]
  }

  lemma GroupedGrows(rows: set<TagRow>, id: nat, grouped: map<nat, Tags>, r: TagRow)
    requires GroupedIs(rows, id, grouped) && r !in rows && r.charge == id
    ensures GroupedIs(rows + {r}, id, Group(grouped, r))
  {
    var more, next := rows + {r}, Group(grouped, r);
    forall i | i in next ensures HasRow(more, id, i) && DictIs(more, id, i, next[i]) {
      if i == r.rowIndex {
        assert r in more;
        forall k | k in next[i]
          ensures exists x :: x in more && x.charge == id && x.rowIndex == i && x.key == k && x.value == next[i][k]
        {
          if k != r.key {
            assert k in grouped[i];
            var x :| x in rows && x.charge == id && x.rowIndex == i && x.key == k && x.value == grouped[i][k];
            assert x in more;
          }
        }
        forall x | x in more && x.charge == id && x.rowIndex == i ensures x.key in next[i] {
          if x != r { assert x in rows && x.rowIndex in grouped; }
        }
      } else {
        assert DictIs(rows, id, i, grouped[i]);
        var x :| x in rows && x.charge == id && x.rowIndex == i;
        assert x in more;
        forall k | k in next[i]
          ensures exists x :: x in more && x.charge == id && x.rowIndex == i && x.key == k && x.value == next[i][k]
        {
          var x :| x in rows && x.charge == id && x.rowIndex == i && x.key == k && x.value == grouped[i][k];
          assert x in more;
        }
      }
    }
  }

  /** One dict per input row, empty for the rows without a table row. */
  function DictList(grouped: map<nat, Tags>, count: nat): (r: seq<Tags>)
    ensures |r| == count
  {
    seq(count, i requires 0 <= i < count => if i in grouped then grouped[i] else map[])
  }

  lemma DictListIsLoaded(rows: set<TagRow>, id: nat, grouped: map<nat, Tags>, count: nat)
    requires GroupedIs(rows, id, grouped) && RowCountIs(rows, id, count)
    ensures TagsLoaded(rows, id, DictList(grouped, count))
  {
    var dicts := DictList(grouped, count);
    forall i | 0 <= i < count ensures DictIs(rows, id, i, dicts[i]) {
      if i in grouped { assert DictIs(rows, id, i, grouped[i]); }
    }
  }

  /** The state of the loop when `todo` is still to be fetched. */
  ghost predicate TagsSoFar(all: set<TagRow>, todo: set<TagRow>, id: nat, grouped: map<nat, Tags>, count: nat) {
    todo <= all && GroupedIs(all - todo, id, grouped) && RowCountIs(all - todo, id, count)
  }

  function CountUpTo(count: nat, r: TagRow): nat { if count <= r.rowIndex then r.rowIndex + 1 else count }

  lemma TagsStep(all: set<TagRow>, todo: set<TagRow>, id: nat, grouped: map<nat, Tags>, count: nat, r: TagRow)
    requires TagsSoFar(all, todo, id, grouped, count) && r in todo && r.charge == id
    ensures TagsSoFar(all, todo - {r}, id, Group(grouped, r), CountUpTo(count, r))
  {
    assert all - (todo - {r}) == (all - todo) + {r};
    GroupedGrows(all - todo, id, grouped, r);
    CountGrows(all - todo, id, count, r);
  }

  /** A row of another charge changes nothing for this one. */
  lemma OtherRow(rows: set<TagRow>, id: nat, r: TagRow)
    requires r.charge != id
    ensures forall i :: HasRow(rows, id, i) <==> HasRow(rows + {r}, id, i)
    ensures forall n: nat :: RowCountIs(rows, id, n) ==> RowCountIs(rows + {r}, id, n)
  {
    var more := rows + {r};
    forall x | x in rows ensures x in more {}
    forall i | HasRow(rows, id, i) ensures HasRow(more, id, i) {
      var x :| x in rows && x.charge == id && x.rowIndex == i;
      assert x in more;
    }
    forall n: nat | RowCountIs(rows, id, n) ensures RowCountIs(more, id, n) {
      if n > 0 {
        var x :| x in rows && x.charge == id && x.rowIndex == n - 1;
        assert x in more;
      }
    }
  }

  lemma OtherDict(rows: set<TagRow>, id: nat, i: nat, d: Tags, r: TagRow)
    requires r.charge != id && DictIs(rows, id, i, d)
    ensures DictIs(rows + {r}, id, i, d)
  {
    forall k | k in d ensures exists x :: x in rows + {r} && x.charge == id && x.rowIndex == i && x.key == k && x.value == d[k] {
      var x :| x in rows && x.charge == id && x.rowIndex == i && x.key == k && x.value == d[k];
      assert x in rows + {r};
    }
  }

  lemma TagsStepElsewhere(all: set<TagRow>, todo: set<TagRow>, id: nat, grouped: map<nat, Tags>, count: nat, r: TagRow)
    requires TagsSoFar(all, todo, id, grouped, count) && r in todo && r.charge != id
    ensures TagsSoFar(all, todo - {r}, id, grouped, count)
  {
    assert all - (todo - {r}) == (all - todo) + {r};
    OtherRow(all - todo, id, r);
    forall i | i in grouped ensures HasRow((all - todo) + {r}, id, i) && DictIs((all - todo) + {r}, id, i, grouped[i]) {
      OtherDict(all - todo, id, i, grouped[i], r);
    }
  }

  function OfCharges(rows: set<TagRow>, ids: set<nat>): set<TagRow> { set r | r in rows && r.charge in ids }

  /** The loop over the rows of all the charges, when `todo` is still to come. */
  ghost predicate AllTagsSoFar(all: set<TagRow>, todo: set<TagRow>, grouped: map<nat, map<nat, Tags>>, counts: map<nat, nat>) {
    grouped.Keys == counts.Keys && forall id :: id in grouped ==> TagsSoFar(all, todo, id, grouped[id], counts[id])
  }

  lemma AllTagsStep(all: set<TagRow>, todo: set<TagRow>, grouped: map<nat, map<nat, Tags>>, counts: map<nat, nat>, r: TagRow)
    requires AllTagsSoFar(all, todo, grouped, counts) && r in todo && r.charge in grouped
    ensures AllTagsSoFar(all, todo - {r}, grouped[r.charge := Group(grouped[r.charge], r)],
                         counts[r.charge := CountUpTo(counts[r.charge], r)])
  {
    forall id | id in grouped
      ensures id == r.charge ==> TagsSoFar(all, todo - {r}, id, Group(grouped[id], r), CountUpTo(counts[id], r))
      ensures id != r.charge ==> TagsSoFar(all, todo - {r}, id, grouped[id], counts[id])
    {
      if id == r.charge {
        TagsStep(all, todo, id, grouped[id], counts[id], r);
      } else {
        TagsStepElsewhere(all, todo, id, grouped[id], counts[id], r);
      }
    }
  }

  lemma TagsDone(rows: set<TagRow>, ids: set<nat>, id: nat, grouped: map<nat, Tags>, count: nat)
    requires id in ids && TagsSoFar(OfCharges(rows, ids), {}, id, grouped, count)
    ensures TagsLoaded(rows, id, DictList(grouped, count))
  {
    assert OfCharges(rows, ids) - {} == OfCharges(rows, ids);
    DictListIsLoaded(OfCharges(rows, ids), id, grouped, count);
    SameCharge(rows, OfCharges(rows, ids), id, DictList(grouped, count));
  }

  /** The tag dicts of the input rows of each charge, all rows fetched at once in any order. */
  method LoadPerRowTags(rows: set<TagRow>, ids: set<nat>) returns (byCharge: map<nat, seq<Tags>>)
    ensures byCharge.Keys == ids && forall id :: id in ids ==> TagsLoaded(rows, id, byCharge[id])
  {
    var todo := OfCharges(rows, ids);
    var grouped: map<nat, map<nat, Tags>> := map id | id in ids :: map[];
    var counts: map<nat, nat> := map id | id in ids :: 0;
    NoTagsYet(OfCharges(rows, ids), ids, grouped, counts);
    while todo != {}
      invariant todo <= OfCharges(rows, ids) && grouped.Keys == ids
      invariant AllTagsSoFar(OfCharges(rows, ids), todo, grouped, counts)
      decreases |todo|
    {
      var r :| r in todo;
      AllTagsStep(OfCharges(rows, ids), todo, grouped, counts, r);
      grouped := grouped[r.charge := Group(grouped[r.charge], r)];
      counts := counts[r.charge := CountUpTo(counts[r.charge], r)];
      todo := todo - {r};
    }
    AllTagsDone(rows, ids, grouped, counts);
    return DictLists(grouped, counts);
  }

  function DictLists(grouped: map<nat, map<nat, Tags>>, counts: map<nat, nat>): (r: map<nat, seq<Tags>>)
    requires grouped.Keys == counts.Keys
    ensures r.Keys == grouped.Keys && forall id :: id in r ==> r[id] == DictList(grouped[id], counts[id])
  {
    map id | id in grouped :: DictList(grouped[id], counts[id])
  }

  lemma AllTagsDone(rows: set<TagRow>, ids: set<nat>, grouped: map<nat, map<nat, Tags>>, counts: map<nat, nat>)
    requires grouped.Keys == ids && AllTagsSoFar(OfCharges(rows, ids), {}, grouped, counts)
    ensures forall id :: id in ids ==> TagsLoaded(rows, id, DictLists(grouped, counts)[id])
  {
    forall id | id in ids ensures TagsLoaded(rows, id, DictList(grouped[id], counts[id])) {
      TagsDone(rows, ids, id, grouped[id], counts[id]);
    }
  }

  lemma NoTagsYet(all: set<TagRow>, ids: set<nat>, grouped: map<nat, map<nat, Tags>>, counts: map<nat, nat>)
    requires grouped.Keys == counts.Keys == ids && forall id :: id in ids ==> grouped[id] == map[] && counts[id] == 0
    ensures AllTagsSoFar(all, all, grouped, counts)
  {
    assert all - all == {};
  }

  lemma SameCharge(rows: set<TagRow>, own: set<TagRow>, id: nat, dicts: seq<Tags>)
    requires own <= rows && (forall r :: r in rows && r.charge == id ==> r in own) && TagsLoaded(own, id, dicts)
    ensures TagsLoaded(rows, id, dicts)
  {
    forall i | 0 <= i < |dicts| ensures DictIs(rows, id, i, dicts[i]) {
      assert DictIs(own, id, i, dicts[i]);
    }
  }

  lemma CountGrows(rows: set<TagRow>, id: nat, n: nat, r: TagRow)
    requires RowCountIs(rows, id, n) && r.charge == id
    ensures RowCountIs(rows + {r}, id, if n <= r.rowIndex then r.rowIndex + 1 else n)
  {
    assert r in rows + {r};
    if n > r.rowIndex {
      var x :| x in rows && x.charge == id && x.rowIndex == n - 1;
      assert x in rows + {r};
    }
  }

  ghost predicate FirstCosts(rows: set<TagRow>, id: nat, first: map<nat, Cost>) {
    && (forall i :: i in first ==> HasRow(rows, id, i) && CostIs(rows, id, i, first[i]))
    && (forall r :: r in rows && r.charge == id ==> r.rowIndex in first)
  }

  /** The first fetched row of an input row decides its cost. */
  function KeepFirst(first: map<nat, Cost>, r: TagRow): map<nat, Cost> {
    if r.rowIndex in first then first else first[r.rowIndex := r.cost]
  }

  lemma FirstCostsGrow(rows: set<TagRow>, id: nat, first: map<nat, Cost>, r: TagRow)
    requires FirstCosts(rows, id, first) && r !in rows && r.charge == id
    ensures FirstCosts(rows + {r}, id, KeepFirst(first, r))
  {
    var more, next := rows + {r}, KeepFirst(first, r);
    assert r in more;
    forall i | i in next ensures HasRow(more, id, i) && CostIs(more, id, i, next[i]) {
      if i in first {
        var x :| x in rows && x.charge == id && x.rowIndex == i && x.cost == first[i];
        assert x in more;
      }
    }
  }

  function CostList(first: map<nat, Cost>, count: nat): (r: seq<Cost>)
    ensures |r| == count
  {
    seq(count, i requires 0 <= i < count => if i in first then first[i] else ZERO)
  }

  lemma CostListIsLoaded(rows: set<TagRow>, id: nat, first: map<nat, Cost>, count: nat)
    requires FirstCosts(rows, id, first) && RowCountIs(rows, id, count)
    ensures CostsLoaded(rows, id, CostList(first, count))
  {
    var costs := CostList(first, count);
    forall i | 0 <= i < count ensures CostIs(rows, id, i, costs[i]) {
      if i in first { assert CostIs(rows, id, i, first[i]); }
    }
  }

  ghost predicate CostsSoFar(all: set<TagRow>, todo: set<TagRow>, id: nat, first: map<nat, Cost>, count: nat) {
    todo <= all && FirstCosts(all - todo, id, first) && RowCountIs(all - todo, id, count)
  }

  lemma CostsStep(all: set<TagRow>, todo: set<TagRow>, id: nat, first: map<nat, Cost>, count: nat, r: TagRow)
    requires CostsSoFar(all, todo, id, first, count) && r in todo && r.charge == id
    ensures CostsSoFar(all, todo - {r}, id, KeepFirst(first, r), CountUpTo(count, r))
  {
    assert all - (todo - {r}) == (all - todo) + {r};
    FirstCostsGrow(all - todo, id, first, r);
    CountGrows(all - todo, id, count, r);
  }

  lemma CostsStepElsewhere(all: set<TagRow>, todo: set<TagRow>, id: nat, first: map<nat, Cost>, count: nat, r: TagRow)
    requires CostsSoFar(all, todo, id, first, count) && r in todo && r.charge != id
    ensures CostsSoFar(all, todo - {r}, id, first, count)
  {
    var more := (all - todo) + {r};
    assert all - (todo - {r}) == more;
    OtherRow(all - todo, id, r);
    forall i | i in first ensures HasRow(more, id, i) && CostIs(more, id, i, first[i]) {
      var x :| x in all - todo && x.charge == id && x.rowIndex == i && x.cost == first[i];
      assert x in more;
    }
  }

  ghost predicate AllCostsSoFar(all: set<TagRow>, todo: set<TagRow>, first: map<nat, map<nat, Cost>>, counts: map<nat, nat>) {
    first.Keys == counts.Keys && forall id :: id in first ==> CostsSoFar(all, todo, id, first[id], counts[id])
  }

  lemma AllCostsStep(all: set<TagRow>, todo: set<TagRow>, first: map<nat, map<nat, Cost>>, counts: map<nat, nat>, r: TagRow)
    requires AllCostsSoFar(all, todo, first, counts) && r in todo && r.charge in first
    ensures AllCostsSoFar(all, todo - {r}, first[r.charge := KeepFirst(first[r.charge], r)],
                          counts[r.charge := CountUpTo(counts[r.charge], r)])
  {
    forall id | id in first
      ensures id == r.charge ==> CostsSoFar(all, todo - {r}, id, KeepFirst(first[id], r), CountUpTo(counts[id], r))
      ensures id != r.charge ==> CostsSoFar(all, todo - {r}, id, first[id], counts[id])
    {
      if id == r.charge {
        CostsStep(all, todo, id, first[id], counts[id], r);
      } else {
        CostsStepElsewhere(all, todo, id, first[id], counts[id], r);
      }
    }
  }

  lemma CostsDone(rows: set<TagRow>, ids: set<nat>, id: nat, first: map<nat, Cost>, count: nat)
    requires id in ids && CostsSoFar(OfCharges(rows, ids), {}, id, first, count)
    ensures CostsLoaded(rows, id, CostList(first, count))
  {
    assert OfCharges(rows, ids) - {} == OfCharges(rows, ids);
    CostListIsLoaded(OfCharges(rows, ids), id, first, count);
    SameCosts(rows, OfCharges(rows, ids), id, CostList(first, count));
  }

  /** The costs of the input rows of each charge, the first fetched row of each deciding. */
  method LoadPerRowCosts(rows: set<TagRow>, ids: set<nat>) returns (byCharge: map<nat, seq<Cost>>)
    ensures byCharge.Keys == ids && forall id :: id in ids ==> CostsLoaded(rows, id, byCharge[id])
  {
    var todo := OfCharges(rows, ids);
    var first: map<nat, map<nat, Cost>> := map id | id in ids :: map[];
    var counts: map<nat, nat> := map id | id in ids :: 0;
    NoCostsYet(OfCharges(rows, ids), ids, first, counts);
    while todo != {}
      invariant todo <= OfCharges(rows, ids) && first.Keys == ids
      invariant AllCostsSoFar(OfCharges(rows, ids), todo, first, counts)
      decreases |todo|
    {
      var r :| r in todo;
      AllCostsStep(OfCharges(rows, ids), todo, first, counts, r);
      first := first[r.charge := KeepFirst(first[r.charge], r)];
      counts := counts[r.charge := CountUpTo(counts[r.charge], r)];
      todo := todo - {r};
    }
    AllCostsDone(rows, ids, first, counts);
    return CostLists(first, counts);
  }

  function CostLists(first: map<nat, map<nat, Cost>>, counts: map<nat, nat>): (r: map<nat, seq<Cost>>)
    requires first.Keys == counts.Keys
    ensures r.Keys == first.Keys && forall id :: id in r ==> r[id] == CostList(first[id], counts[id])
  {
    map id | id in first :: CostList(first[id], counts[id])
  }

  lemma AllCostsDone(rows: set<TagRow>, ids: set<nat>, first: map<nat, map<nat, Cost>>, counts: map<nat, nat>)
    requires first.Keys == ids && AllCostsSoFar(OfCharges(rows, ids), {}, first, counts)
    ensures forall id :: id in ids ==> CostsLoaded(rows, id, CostLists(first, counts)[id])
  {
    forall id | id in ids ensures CostsLoaded(rows, id, CostList(first[id], counts[id])) {
      CostsDone(rows, ids, id, first[id], counts[id]);
    }
  }

  lemma NoCostsYet(all: set<TagRow>, ids: set<nat>, first: map<nat, map<nat, Cost>>, counts: map<nat, nat>)
    requires first.Keys == counts.Keys == ids && forall id :: id in ids ==> first[id] == map[] && counts[id] == 0
    ensures AllCostsSoFar(all, all, first, counts)
  {
    assert all - all == {};
  }

  lemma SameCosts(rows: set<TagRow>, own: set<TagRow>, id: nat, costs: seq<Cost>)
    requires own <= rows && (forall r :: r in rows && r.charge == id ==> r in own) && CostsLoaded(own, id, costs)
    ensures CostsLoaded(rows, id, costs)
  {
    forall i | 0 <= i < |costs| ensures CostIs(rows, id, i, costs[i]) {
      assert CostIs(own, id, i, costs[i]);
    }
  }

  /** Whatever the table holds, the two reconstructions have the same length. */
  lemma LoadersAgreeOnLength(rows: set<TagRow>, id: nat, dicts: seq<Tags>, costs: seq<Cost>)
    requires TagsLoaded(rows, id, dicts) && CostsLoaded(rows, id, costs)
    ensures |dicts| == |costs|
  {
  }

  /** The charge the resolver gets for a stored row. */
  function ReadBack(r: ChargeRow, dicts: seq<Tags>, costs: seq<Cost>): Charge {
    Charge(r.account, r.service, r.canonical, r.periodStart, r.periodEnd, r.cost, dicts, costs, r.currency, r.labels)
  }

  /** So the strict zip never fails on what was read back, and the row-count fallback is never
      reached: without per-row costs there are no tags either. */
  lemma ReadBackNeverFallsBack(rows: set<TagRow>, id: nat, r: ChargeRow, dicts: seq<Tags>, costs: seq<Cost>)
    requires TagsLoaded(rows, id, dicts) && CostsLoaded(rows, id, costs)
    ensures !ZipRaises(ReadBack(r, dicts, costs))
    ensures ReadBack(r, dicts, costs).perRowCosts == [] ==> ReadBack(r, dicts, costs).tags == []
  {
    LoadersAgreeOnLength(rows, id, dicts, costs);
  }

  // ---------------------------------------------------------------- the round trip

  /** The dicts without the empty ones at the end. */
  function Trim(dicts: seq<Tags>): seq<Tags> {
    if dicts == [] then []
    else if dicts[|dicts| - 1] == map[] then Trim(dicts[..|dicts| - 1])
    else dicts
  }

  /** The costs of the trimmed rows, zero for the untagged ones among them. */
  function Zeroed(dicts: seq<Tags>, costs: seq<Cost>): (r: seq<Cost>)
    ensures |r| == |Trim(dicts)|
  {
    seq(|Trim(dicts)|, i requires 0 <= i < |Trim(dicts)| => if Trim(dicts)[i] == map[] then ZERO else CostAt(costs, i))
  }

  lemma {:induction false} TrimIsPrefix(dicts: seq<Tags>)
    ensures var n := |Trim(dicts)|;
      && n <= |dicts| && Trim(dicts) == dicts[..n] && (n > 0 ==> dicts[n - 1] != map[])
      && forall i :: n <= i < |dicts| ==> dicts[i] == map[]
  {
    if dicts != [] && dicts[|dicts| - 1] == map[] {
      TrimIsPrefix(dicts[..|dicts| - 1]);
    } else {
      assert dicts[..|dicts|] == dicts;
    }
  }

  lemma WrittenRow(id: nat, dicts: seq<Tags>, costs: seq<Cost>, i: nat, k: string)
    requires i < |dicts| && k in dicts[i]
    ensures TagRow(id, i, k, dicts[i][k], CostAt(costs, i)) in RowsFor(id, dicts, costs)
  {
  }

  lemma WrittenRowCount(rows: set<TagRow>, id: nat, dicts: seq<Tags>, costs: seq<Cost>, n: nat)
    requires OfCharge(rows, id) == RowsFor(id, dicts, costs) && RowCountIs(rows, id, n)
    ensures n == |Trim(dicts)|
  {
    var m := |Trim(dicts)|;
    TrimIsPrefix(dicts);
    if m > 0 {
      var k :| k in dicts[m - 1];
      WrittenRow(id, dicts, costs, m - 1, k);
      assert TagRow(id, m - 1, k, dicts[m - 1][k], CostAt(costs, m - 1)) in OfCharge(rows, id);
    }
    if n > 0 {
      var r :| r in rows && r.charge == id && r.rowIndex == n - 1;
      assert r in OfCharge(rows, id);
      assert n - 1 < |dicts| && r.key in dicts[n - 1];
    }
  }

  /** Reading back what was written, in any fetch order: the tags are the original ones without
      the untagged rows at the end; the costs are the original ones of those rows, with zero for
      the untagged rows in between. */
  lemma RoundTrip(rows: set<TagRow>, id: nat, dicts: seq<Tags>, costs: seq<Cost>, readTags: seq<Tags>, readCosts: seq<Cost>)
    requires OfCharge(rows, id) == RowsFor(id, dicts, costs)
    requires TagsLoaded(rows, id, readTags) && CostsLoaded(rows, id, readCosts)
    ensures readTags == Trim(dicts) && readCosts == Zeroed(dicts, costs)
  {
    WrittenRowCount(rows, id, dicts, costs, |readTags|);
    WrittenRowCount(rows, id, dicts, costs, |readCosts|);
    TrimIsPrefix(dicts);
    forall i | 0 <= i < |readTags| ensures readTags[i] == dicts[i] && readCosts[i] == Zeroed(dicts, costs)[i] {
      DictRoundTrip(rows, id, dicts, costs, i, readTags[i]);
      CostRoundTrip(rows, id, dicts, costs, i, readCosts[i]);
    }
  }

  lemma DictRoundTrip(rows: set<TagRow>, id: nat, dicts: seq<Tags>, costs: seq<Cost>, i: nat, d: Tags)
    requires OfCharge(rows, id) == RowsFor(id, dicts, costs) && i < |dicts| && DictIs(rows, id, i, d)
    ensures d == dicts[i]
  {
    forall k ensures k in d <==> k in dicts[i] {
      if k in dicts[i] {
        WrittenRow(id, dicts, costs, i, k);
        assert TagRow(id, i, k, dicts[i][k], CostAt(costs, i)) in OfCharge(rows, id);
      }
      if k in d {
        var r :| r in rows && r.charge == id && r.rowIndex == i && r.key == k && r.value == d[k];
        assert r in OfCharge(rows, id);
      }
    }
    forall k | k in d ensures d[k] == dicts[i][k] {
      var r :| r in rows && r.charge == id && r.rowIndex == i && r.key == k && r.value == d[k];
      assert r in OfCharge(rows, id);
    }
  }

  lemma CostRoundTrip(rows: set<TagRow>, id: nat, dicts: seq<Tags>, costs: seq<Cost>, i: nat, c: Cost)
    requires OfCharge(rows, id) == RowsFor(id, dicts, costs) && i < |dicts| && CostIs(rows, id, i, c)
    ensures c == if dicts[i] == map[] then ZERO else CostAt(costs, i)
  {
    if dicts[i] != map[] {
      var k :| k in dicts[i];
      WrittenRow(id, dicts, costs, i, k);
      assert TagRow(id, i, k, dicts[i][k], CostAt(costs, i)) in OfCharge(rows, id);
      assert HasRow(rows, id, i);
    }
    if HasRow(rows, id, i) {
      var r :| r in rows && r.charge == id && r.rowIndex == i && r.cost == c;
      assert r in OfCharge(rows, id);
      assert r.key in dicts[i];
    }
  }

  /** With every input row tagged, storage is invisible. */
  lemma {:induction false} FullyTaggedIsIdentity(dicts: seq<Tags>, costs: seq<Cost>)
    requires |dicts| == |costs| && forall i :: 0 <= i < |dicts| ==> dicts[i] != map[]
    ensures Trim(dicts) == dicts && Zeroed(dicts, costs) == costs
  {
    TrimIsPrefix(dicts);
    if dicts != [] { assert Trim(dicts) == dicts; }
  }

  // ---------------------------------------------------------------- what the tag view attributes

  function TaggedCost(dicts: seq<Tags>, costs: seq<Cost>): Cost
    requires |dicts| == |costs|
  {
    if dicts == [] then ZERO
    else
      Plus(TaggedCost(dicts[..|dicts| - 1], costs[..|costs| - 1]),
           if dicts[|dicts| - 1] == map[] then ZERO else costs[|costs| - 1])
  }

  function UntaggedCost(dicts: seq<Tags>, costs: seq<Cost>): Cost
    requires |dicts| == |costs|
  {
    if dicts == [] then ZERO
    else
      Plus(UntaggedCost(dicts[..|dicts| - 1], costs[..|costs| - 1]),
           if dicts[|dicts| - 1] == map[] then costs[|costs| - 1] else ZERO)
  }

  lemma PlusEither(a: Cost, b: Cost, c: Cost)
    ensures Plus(Plus(a, c), Plus(b, ZERO)) == Plus(Plus(a, b), c) == Plus(Plus(a, ZERO), Plus(b, c))
  {
  }

  lemma {:induction false} TaggedPlusUntagged(dicts: seq<Tags>, costs: seq<Cost>)
    requires |dicts| == |costs|
    ensures Plus(TaggedCost(dicts, costs), UntaggedCost(dicts, costs)) == Sum(costs)
  {
    if dicts != [] {
      var ds, cs := dicts[..|dicts| - 1], costs[..|costs| - 1];
      TaggedPlusUntagged(ds, cs);
      PlusEither(TaggedCost(ds, cs), UntaggedCost(ds, cs), costs[|costs| - 1]);
    }
  }

  function Masked(dicts: seq<Tags>, costs: seq<Cost>): (r: seq<Cost>)
    requires |dicts| == |costs|
    ensures |r| == |dicts|
  {
    seq(|dicts|, i requires 0 <= i < |dicts| => if dicts[i] == map[] then ZERO else costs[i])
  }

  lemma {:induction false} MaskedSum(dicts: seq<Tags>, costs: seq<Cost>)
    requires |dicts| == |costs|
    ensures Sum(Masked(dicts, costs)) == TaggedCost(dicts, costs)
  {
    if dicts != [] {
      var ds, cs, m := dicts[..|dicts| - 1], costs[..|costs| - 1], Masked(dicts, costs);
      MaskedSum(ds, cs);
      assert m[..|m| - 1] == Masked(ds, cs);
    }
  }

  lemma {:induction false} ZeroTail(costs: seq<Cost>, n: nat)
    requires n <= |costs| && forall i :: n <= i < |costs| ==> costs[i] == ZERO
    ensures Sum(costs[..n]) == Sum(costs)
  {
    if n < |costs| {
      ZeroTail(costs[..|costs| - 1], n);
      assert costs[..|costs| - 1][..n] == costs[..n];
    } else {
      assert costs[..n] == costs;
    }
  }

  lemma ZeroedSum(dicts: seq<Tags>, costs: seq<Cost>)
    requires |dicts| == |costs|
    ensures Sum(Zeroed(dicts, costs)) == TaggedCost(dicts, costs)
  {
    TrimIsPrefix(dicts);
    var m := Masked(dicts, costs);
    assert Zeroed(dicts, costs) == m[..|Trim(dicts)|];
    ZeroTail(m, |Trim(dicts)|);
    MaskedSum(dicts, costs);
  }

  ghost predicate NoneTagged(dicts: seq<Tags>) { forall i :: 0 <= i < |dicts| ==> dicts[i] == map[] }

  lemma TrimIsEmpty(dicts: seq<Tags>)
    ensures Trim(dicts) == [] <==> NoneTagged(dicts)
  {
    TrimIsPrefix(dicts);
  }

  /** What chargeback by any tag attributes to a stored bucket: the cost of its tagged input
      rows, or the whole cost when no row is tagged. It is the whole cost exactly when the
      untagged rows cost nothing, or no row is tagged. */
  lemma {:induction false} StoredAttribution(r: ChargeRow, dicts: seq<Tags>, costs: seq<Cost>, tagKey: string)
    requires |dicts| == |costs| && r.cost == Sum(costs)
    ensures var c := ReadBack(r, Trim(dicts), Zeroed(dicts, costs));
      && !ZipRaises(c)
      && AmountIn(TagPostingsOf(c, tagKey), KeyOf(c, None)) == (if NoneTagged(dicts) then r.cost else TaggedCost(dicts, costs))
      && (KeepsItsCost(c) <==> NoneTagged(dicts) || UntaggedCost(dicts, costs) == ZERO)
  {
    var c := ReadBack(r, Trim(dicts), Zeroed(dicts, costs));
    ZeroedSum(dicts, costs);
    TaggedPlusUntagged(dicts, costs);
    TrimIsEmpty(dicts);
    if c.perRowCosts != [] {
      RowsAmount(c, tagKey, |c.tags|, KeyOf(c, None));
      assert c.perRowCosts[..|c.tags|] == c.perRowCosts;
    } else {
      OnePosting(Posting(KeyOf(c, Some(UNTAGGED)), c.cost), KeyOf(c, None));
    }
  }

  lemma TwoRows(tagged: Tags, a: Cost, b: Cost)
    requires tagged != map[]
    ensures Sum([a, b]) == Plus(Plus(ZERO, a), b)
    ensures TaggedCost([tagged, map[]], [a, b]) == Plus(Plus(ZERO, a), ZERO)
    ensures !NoneTagged([tagged, map[]])
  {
    assert [a, b][..1] == [a] && [a][..0] == [];
    assert [tagged, map[]][..1] == [tagged] && [tagged][..0] == [];
    assert Sum([a]) == Plus(Sum([]), a);
    assert TaggedCost([tagged], [a]) == Plus(TaggedCost([], []), a);
    assert [tagged, map[]][0] == tagged;
  }

  /** One tagged and one untagged input row: the tag view accounts for the tagged one only. */
  lemma {:induction false} OneOfTwoRows(r: ChargeRow, tagged: Tags, a: Cost, b: Cost, tagKey: string, c: Charge)
    requires tagged != map[] && r.cost == Plus(a, b)
    requires c == ReadBack(r, Trim([tagged, map[]]), Zeroed([tagged, map[]], [a, b]))
    ensures !ZipRaises(c) && AmountIn(TagPostingsOf(c, tagKey), KeyOf(c, None)) == a
  {
    TwoRows(tagged, a, b);
    StoredAttribution(r, [tagged, map[]], [a, b], tagKey);
  }

  /** One row of 3 tagged web and one untagged row of 97: the tag view accounts for 3 of 100. */
  lemma {:induction false} MixedBucketLosesItsUntaggedRows(r: ChargeRow, tagged: Tags, tagKey: string, c: Charge)
    requires r.cost == Cost(100.0, 100.0) && tagged == map["Application" := "web"]
    requires c == ReadBack(r, Trim([tagged, map[]]), Zeroed([tagged, map[]], [Cost(3.0, 3.0), Cost(97.0, 97.0)]))
    ensures !ZipRaises(c) && AmountIn(TagPostingsOf(c, tagKey), KeyOf(c, None)) == Cost(3.0, 3.0)
  {
    assert "Application" in tagged;
    OneOfTwoRows(r, tagged, Cost(3.0, 3.0), Cost(97.0, 97.0), tagKey, c);
  }

  // ---------------------------------------------------------------- store, then group

  /** The aggregates of an ingest, inserted under one account into an empty table. */
  function InsertedAll(account: string, aggs: seq<Aggregated>): (r: seq<ChargeRow>)
    ensures |r| == |aggs|
  {
    seq(|aggs|, i requires 0 <= i < |aggs| => Inserted(account, aggs[i]))
  }

  lemma {:induction false} FreshIngest(account: string, aggs: seq<Aggregated>)
    requires DistinctKeys(account, aggs)
    ensures UpsertAll(FocusStorage.EMPTY, account, aggs).charges == InsertedAll(account, aggs)
  {
    if aggs != [] {
      var front, last := aggs[..|aggs| - 1], aggs[|aggs| - 1];
      FreshIngest(account, front);
      var t := UpsertAll(FocusStorage.EMPTY, account, front);
      forall k | 0 <= k < |t.charges| ensures KeyOfRow(t.charges[k]) != KeyOfAggregate(account, last) {
        assert KeyOfRow(t.charges[k]) == KeyOfAggregate(account, aggs[k]);
      }
    }
  }

  /** Stored rows as the resolver sees them, whatever per-row data came with them. */
  ghost predicate IsReadBack(charges: seq<Charge>, rows: seq<ChargeRow>) {
    && |charges| == |rows|
    && forall k :: 0 <= k < |rows| ==> charges[k] == ReadBack(rows[k], charges[k].tags, charges[k].perRowCosts)
  }

  lemma {:induction false} DistinctPostings(ps: seq<Posting>)
    requires forall i, j :: 0 <= i < j < |ps| ==> ps[i].key != ps[j].key
    ensures |KeysOf(ps)| == |ps|
    ensures forall i :: 0 <= i < |ps| ==>
      KeysOf(ps)[i] == ps[i].key && AmountAt(ps, ps[i].key) == ps[i].cost && CountAt(ps, ps[i].key) == 1
  {
    if ps != [] {
      var front, last := ps[..|ps| - 1], ps[|ps| - 1];
      DistinctPostings(front);
      forall i | 0 <= i < |KeysOf(front)| ensures KeysOf(front)[i] != last.key {
        assert KeysOf(front)[i] == ps[i].key;
      }
      UnbookedIsZero(front, last.key);
      forall i | 0 <= i < |ps|
        ensures KeysOf(ps)[i] == ps[i].key && AmountAt(ps, ps[i].key) == ps[i].cost && CountAt(ps, ps[i].key) == 1
      {
        if i < |front| { assert front[i] == ps[i]; }
      }
    }
  }

  /** The aggregate the report shows for bucket `i` of the raw charges. */
  function ReportOf(account: string, cs: seq<Charge>, i: nat): AggregatedCost
    requires i < |GroupsOf(cs)|
  {
    var g := GroupsOf(cs)[i];
    AggregatedCost(
      CostKey(account, g.bucket.service, g.bucket.periodStart, g.bucket.periodEnd,
              if g.rows == [] then "USD" else g.rows[0].currency, None),
      TotalCost(g.rows), 1)
  }

  lemma StoredKey(account: string, cs: seq<Charge>, i: nat, c: Charge)
    requires i < |GroupsOf(cs)|
    requires c == ReadBack(Inserted(account, AggregatesOf(GroupsOf(cs))[i]), c.tags, c.perRowCosts)
    ensures KeyOf(c, None) == ReportOf(account, cs, i).key && c.cost == ReportOf(account, cs, i).cost
  {
    GroupRows(cs, i);
    AggregateKeepsItsKey(GroupsOf(cs)[i].bucket, GroupsOf(cs)[i].rows);
  }

  /** Storing an accepted file under one account in an empty table and grouping by period gives
      one aggregate per (service key, period), in order, whose billed and amortized amounts, and
      so its drift, are the direct sums over the raw charges of the bucket. */
  lemma StoreThenGroup(account: string, cs: seq<Charge>, read: seq<Charge>)
    requires IsReadBack(read, UpsertAll(FocusStorage.EMPTY, account, AggregatesOf(GroupsOf(cs))).charges)
    ensures |Aggregates(PeriodPostings(read))| == |GroupsOf(cs)|
    ensures forall i :: 0 <= i < |GroupsOf(cs)| ==> Aggregates(PeriodPostings(read))[i] == ReportOf(account, cs, i)
  {
    var aggs := AggregatesOf(GroupsOf(cs));
    AggregatorOutputIsDistinct(account, cs);
    FreshIngest(account, aggs);
    var ps := PeriodPostings(read);
    forall i | 0 <= i < |ps| ensures ps[i] == Posting(ReportOf(account, cs, i).key, ReportOf(account, cs, i).cost) {
      StoredKey(account, cs, i, read[i]);
    }
    BucketsAreDistinct(cs);
    forall i, j | 0 <= i < j < |ps| ensures ps[i].key != ps[j].key {
      assert ReportOf(account, cs, i).key.service == BucketsOf(cs)[i].service;
      assert BucketsOf(cs)[i] != BucketsOf(cs)[j];
    }
    DistinctPostings(ps);
    forall i | 0 <= i < |GroupsOf(cs)| ensures Aggregates(ps)[i] == ReportOf(account, cs, i) {
      assert KeysOf(ps)[i] == ps[i].key;
    }
  }
}

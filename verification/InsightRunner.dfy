/** A resource-rule run from scope check to event log, on the tables it updates, and the promise
    that no finding is made without a fresh proof of its scope. Sources:
    apps/api/src/constat_api/insights/runner.py, repositories/insights.py and
    repositories/insight_events.py. */
module InsightRunner {
  import opened Wrappers
  import opened RuleRuns
  import AckCarryOver
  import ScanProof

  /** The source whose scans prove the scope of each resource rule; other names are refused. */
  function SourceOf(rule: string): Option<string> {
    if rule in {"rds_eol", "mysql_eol", "aurora_eol"} then Some("aws_rds")
    else if rule in {"ebs_gp2_to_gp3", "ebs_unattached", "snapshot_orphan", "ec2_stopped_with_storage"} then Some("aws_ec2")
    else None
  }

  datatype Resource = Resource(id: nat, scope: ScanProof.Scope)

  /** What the rule's evaluate function does with the facts of one resource. */
  datatype Verdict = Evaluated(findings: seq<Finding>, reasons: seq<string>) | Raises

  /** What a run reads: the resources, the source runs, the freshness window, the clock at each
      resource, which resources have facts, and the rule's verdict on each. */
  datatype Input = Input(
    resources: seq<Resource>,
    runs: seq<ScanProof.SourceRun>,
    maxAge: Option<real>,
    at: nat -> real,
    hasFacts: nat -> bool,
    verdict: nat -> Verdict)

  const NOT_PROVEN: seq<string> := ["scope_not_proven"]
  const STALE: seq<string> := ["scope_stale"]
  const NO_FACTS: seq<string> := ["<no facts>"]

  function ScopeInconclusive(r: Resource, rule: string, source: string, input: Input, now: real): Option<Inconclusive> {
    if ScanProof.LatestSuccessfulRun(input.runs, r.scope, source, input.maxAge, now).Some? then None
    else if ScanProof.LatestSuccessfulRun(input.runs, r.scope, source, None, now).None? then
      Some(Inconclusive(rule, r.id, NOT_PROVEN))
    else Some(Inconclusive(rule, r.id, STALE))
  }

  /** Findings and inconclusives of one resource; nothing when its evaluation raises. */
  function EvaluateResource(r: Resource, rule: string, source: string, input: Input, now: real)
    : Outcome
  {
    var scopeInc := ScopeInconclusive(r, rule, source, input, now);
    if scopeInc.Some? then Some(([], [scopeInc.value]))
    else if !input.hasFacts(r.id) then Some(([], [Inconclusive(rule, r.id, NO_FACTS)]))
    else
      match input.verdict(r.id)
      case Raises => None
      case Evaluated(findings, reasons) =>
        Some((findings, if reasons == [] then [] else [Inconclusive(rule, r.id, reasons)]))
  }

  type Outcome = Option<(seq<Finding>, seq<Inconclusive>)>

  function OutcomeAt(rule: string, source: string, input: Input, i: nat): Outcome
    requires i < |input.resources|
  {
    EvaluateResource(input.resources[i], rule, source, input, input.at(i))
  }

  /** The outcome at each position of the resource list. */
  function OutcomesOf(rule: string, source: string, input: Input): nat -> Outcome {
    (i: nat) => if i < |input.resources| then OutcomeAt(rule, source, input, i) else None
  }

  function Found(o: Outcome): seq<Finding> { if o.Some? then o.value.0 else [] }

  function Unknown(o: Outcome): seq<Inconclusive> { if o.Some? then o.value.1 else [] }

  function Failure(o: Outcome): nat { if o.None? then 1 else 0 }

  /** What the first `n` outcomes emit. */
  function FindingsOf(o: nat -> Outcome, n: nat): seq<Finding> {
    if n == 0 then [] else FindingsOf(o, n - 1) + Found(o(n - 1))
  }

  function InconclusivesOf(o: nat -> Outcome, n: nat): seq<Inconclusive> {
    if n == 0 then [] else InconclusivesOf(o, n - 1) + Unknown(o(n - 1))
  }

  function ErrorsOf(o: nat -> Outcome, n: nat): nat {
    if n == 0 then 0 else ErrorsOf(o, n - 1) + Failure(o(n - 1))
  }

  function RunOp(rule: string, source: string, input: Input): Op {
    RunRule(rule, FindingsOf(OutcomesOf(rule, source, input), |input.resources|), InconclusivesOf(OutcomesOf(rule, source, input), |input.resources|))
  }

  datatype RunResult = RunResult(scanned: nat, findings: nat, inconclusives: nat, errors: nat)

  /** How many rows of the rule have no ack while the snapshot has one for their gap. */
  function CarriedCount(rows: seq<Row>, rule: string, snapshot: map<Gap, Ack>): nat {
    if rows == [] then 0
    else
      var r := rows[|rows| - 1];
      CarriedCount(rows[..|rows| - 1], rule, snapshot)
      + Bit(r.finding.rule == rule && r.ack.None? && StableIdOf(r.finding) in snapshot)
  }

  /** How many of the events are appearances, or how many are resolutions. */
  function EventCount(events: seq<Event>, appeared: bool): nat {
    if events == [] then 0
    else EventCount(events[..|events| - 1], appeared) + Bit(events[|events| - 1].appeared == appeared)
  }

  lemma {:induction false} CountsOfConcat(a: seq<Event>, b: seq<Event>, appeared: bool)
    ensures EventCount(a + b, appeared) == EventCount(a, appeared) + EventCount(b, appeared)
  {
    if b == [] {
      assert a + b == a;
    } else {
      assert (a + b)[..|a + b| - 1] == a + b[..|b| - 1];
      CountsOfConcat(a, b[..|b| - 1], appeared);
    }
  }

  lemma {:induction false} CountsOfKind(keys: seq<Fingerprint>, other: seq<Fingerprint>, rows: seq<Row>, kind: bool, run: nat, appeared: bool)
    ensures EventCount(EventsFor(keys, other, rows, kind, run), appeared)
      == if kind == appeared then |EventsFor(keys, other, rows, kind, run)| else 0
  {
    if keys != [] {
      var front := EventsFor(keys[..|keys| - 1], other, rows, kind, run);
      CountsOfKind(keys[..|keys| - 1], other, rows, kind, run, appeared);
      if keys[|keys| - 1] in other {
        assert EventsFor(keys, other, rows, kind, run) == front;
      } else {
        assert EventsFor(keys, other, rows, kind, run)[..|front|] == front;
      }
    }
  }

  lemma DiffCounts(before: seq<Row>, after: seq<Row>, rule: string, run: nat)
    ensures var was, now := SnapshotKeys(before, rule), SnapshotKeys(after, rule);
      && EventCount(Diff(before, after, rule, run), true) == |EventsFor(now, was, after, true, run)|
      && EventCount(Diff(before, after, rule, run), false) == |EventsFor(was, now, before, false, run)|
  {
    var was, now := SnapshotKeys(before, rule), SnapshotKeys(after, rule);
    var a, b := EventsFor(now, was, after, true, run), EventsFor(was, now, before, false, run);
    CountsOfConcat(a, b, true);
    CountsOfConcat(a, b, false);
    CountsOfKind(now, was, after, true, run, true);
    CountsOfKind(now, was, after, true, run, false);
    CountsOfKind(was, now, before, false, run, true);
    CountsOfKind(was, now, before, false, run, false);
  }

  // ---------------------------------------------------------------- the tables, in place

  class InsightStore {
    var insights: seq<Row>
    var inconclusives: seq<Inconclusive>
    var events: seq<Event>
    var nextId: nat
    var nextRun: nat

    function State(): Table
      reads this
    {
      Table(insights, inconclusives, events, nextId, nextRun)
    }

    constructor ()
      ensures State() == EMPTY
    {
      insights, inconclusives, events, nextId, nextRun := [], [], [], 0, 0;
    }

    method InsertInsight(f: Finding)
      modifies `insights, `nextId
      ensures insights == old(insights) + [Row(old(nextId), f, None)] && nextId == old(nextId) + 1
    {
      insights := insights + [Row(nextId, f, None)];
      nextId := nextId + 1;
    }

    method ApplyAcksToRule(rule: string, snapshot: map<Gap, Ack>) returns (applied: nat)
      modifies `insights
      ensures insights == WithAcks(old(insights), rule, snapshot)
      ensures applied == CarriedCount(old(insights), rule, snapshot)
    {
      applied := 0;
      for i := 0 to |insights|
        invariant |insights| == |old(insights)|
        invariant forall k :: 0 <= k < |insights| ==>
          insights[k] == if k < i then Carried(old(insights)[k], rule, snapshot) else old(insights)[k]
        invariant applied == CarriedCount(old(insights)[..i], rule, snapshot)
      {
        assert old(insights)[..i + 1][..i] == old(insights)[..i];
        var r := insights[i];
        if r.finding.rule == rule && r.ack.None? && StableIdOf(r.finding) in snapshot {
          insights := insights[i := r.(ack := Some(snapshot[StableIdOf(r.finding)]))];
          applied := applied + 1;
        }
      }
      assert old(insights)[..|old(insights)|] == old(insights);
    }

    method RecordEvents(keys: seq<Fingerprint>, other: seq<Fingerprint>, rows: seq<Row>, appeared: bool, run: nat)
      returns (count: nat)
      modifies `events
      ensures events == old(events) + EventsFor(keys, other, rows, appeared, run)
      ensures count == |EventsFor(keys, other, rows, appeared, run)|
    {
      count := 0;
      for k := 0 to |keys|
        invariant events == old(events) + EventsFor(keys[..k], other, rows, appeared, run)
        invariant count == |EventsFor(keys[..k], other, rows, appeared, run)|
      {
        assert keys[..k + 1][..k] == keys[..k];
        if keys[k] !in other {
          events := events + [Event(keys[k], appeared, MonthlyOf(rows, keys[k]), run)];
          count := count + 1;
        }
      }
      assert keys[..|keys|] == keys;
    }

    /** `previous` are the rows the rule had before the run. */
    method DiffAndRecordEvents(rule: string, previous: seq<Row>, run: nat) returns (appeared: nat, resolved: nat)
      modifies `events
      ensures events == old(events) + Diff(previous, insights, rule, run)
      ensures appeared == EventCount(Diff(previous, insights, rule, run), true)
      ensures resolved == EventCount(Diff(previous, insights, rule, run), false)
    {
      var was, now := SnapshotKeys(previous, rule), SnapshotKeys(insights, rule);
      appeared := RecordEvents(now, was, insights, true, run);
      resolved := RecordEvents(was, now, previous, false, run);
      DiffCounts(previous, insights, rule, run);
    }

    method InsertAll(rule: string, outcome: Outcome)
      modifies this
      ensures State() == WithOutcome(old(State()), Found(outcome), Unknown(outcome))
    {
      if outcome.None? {
        return;
      }
      var (found, unknown) := outcome.value;
      for k := 0 to |found|
        invariant insights == old(insights) + FreshRows(found[..k], old(nextId)) && nextId == old(nextId) + k
        invariant inconclusives == old(inconclusives) && events == old(events) && nextRun == old(nextRun)
      {
        InsertInsight(found[k]);
        assert FreshRows(found[..k + 1], old(nextId)) == FreshRows(found[..k], old(nextId)) + [Row(old(nextId) + k, found[k], None)];
      }
      assert found[..|found|] == found;
      inconclusives := inconclusives + unknown;
    }

    /** The loop over all resources, `o(i)` being what evaluating resource `i` gives: insert what
        it emits, count what raises. */
    method EvaluateAll(rule: string, o: nat -> Outcome, n: nat) returns (emitted: nat, unknown: nat, errors: nat)
      modifies this
      ensures emitted == |FindingsOf(o, n)| && unknown == |InconclusivesOf(o, n)| && errors == ErrorsOf(o, n)
      ensures State() == WithOutcome(old(State()), FindingsOf(o, n), InconclusivesOf(o, n))
    {
      ghost var start := State();
      emitted, unknown, errors := 0, 0, 0;
      assert start.insights + FreshRows([], nextId) == start.insights && start.inconclusives + [] == start.inconclusives;
      for i := 0 to n
        invariant emitted == |FindingsOf(o, i)| && unknown == |InconclusivesOf(o, i)| && errors == ErrorsOf(o, i)
        invariant State() == WithOutcome(start, FindingsOf(o, i), InconclusivesOf(o, i))
      {
        var outcome := o(i);
        InsertAll(rule, outcome);
        TwoOutcomes(start, FindingsOf(o, i), Found(outcome), InconclusivesOf(o, i), Unknown(outcome));
        if outcome.None? {
          errors := errors + 1;
        } else {
          emitted := emitted + |outcome.value.0|;
          unknown := unknown + |outcome.value.1|;
        }
      }
    }

    /** Snapshot, delete, re-evaluate every resource, carry the acks over, record the diff. */
    method Replace(rule: string, o: nat -> Outcome, n: nat) returns (result: RunResult)
      modifies this
      ensures State() == Step(old(State()), RunRule(rule, FindingsOf(o, n), InconclusivesOf(o, n)))
      ensures result == RunResult(n, |FindingsOf(o, n)|, |InconclusivesOf(o, n)|, ErrorsOf(o, n))
    {
      ghost var t, found, incs := State(), FindingsOf(o, n), InconclusivesOf(o, n);
      var previous := insights;
      var snapshot := AckSnapshot(insights, rule);
      insights := WithoutRule(insights, rule);
      inconclusives := WithoutInconclusive(inconclusives, rule);
      var emitted, unknown, errors := EvaluateAll(rule, o, n);
      assert insights == WithoutRule(t.insights, rule) + FreshRows(found, t.nextId);
      var _ := ApplyAcksToRule(rule, snapshot);
      assert insights == Replaced(t.insights, rule, found, t.nextId);
      var _, _ := DiffAndRecordEvents(rule, previous, nextRun);
      nextRun := nextRun + 1;
      RebuiltIsStep(t, rule, found, incs);
      return RunResult(n, emitted, unknown, errors);
    }

    /** An unknown rule is refused before anything is touched. */
    method RunResourceRule(rule: string, input: Input) returns (result: Result<RunResult, string>)
      modifies this
      ensures result.Err? <==> SourceOf(rule).None?
      ensures result.Err? ==> State() == old(State())
      ensures result.Ok? ==> State() == Step(old(State()), RunOp(rule, SourceOf(rule).value, input))
      ensures result.Ok? ==> result.value == RunResult(|input.resources|,
        |RunOp(rule, SourceOf(rule).value, input).findings|, |RunOp(rule, SourceOf(rule).value, input).inconclusives|,
        ErrorsOf(OutcomesOf(rule, SourceOf(rule).value, input), |input.resources|))
    {
      if SourceOf(rule).None? {
        return Err("unknown resource rule");
      }
      var done := Replace(rule, OutcomesOf(rule, SourceOf(rule).value, input), |input.resources|);
      return Ok(done);
    }

    /** The operator's patch: refused for an unknown status, a no-op for an unknown id. */
    method UpdateAck(id: nat, ack: Ack) returns (found: Result<bool, string>)
      modifies `insights
      ensures found.Err? <==> ack.status !in ACK_STATUSES
      ensures State() == Step(old(State()), Patch(id, ack))
      ensures found.Ok? ==> (found.value <==> exists k :: 0 <= k < |old(insights)| && old(insights)[k].id == id)
    {
      if ack.status !in ACK_STATUSES {
        return Err("invalid ack_status");
      }
      var hit := false;
      for i := 0 to |insights|
        invariant |insights| == |old(insights)|
        invariant forall k :: 0 <= k < |insights| ==>
          insights[k] == if k < i && old(insights)[k].id == id then old(insights)[k].(ack := Some(ack)) else old(insights)[k]
        invariant hit <==> exists k :: 0 <= k < i && old(insights)[k].id == id
      {
        if insights[i].id == id {
          insights := insights[i := insights[i].(ack := Some(ack))];
          hit := true;
        }
      }
      return Ok(hit);
    }
  }

  /** The table with the findings and inconclusives of one resource appended. */
  function WithOutcome(t: Table, found: seq<Finding>, incs: seq<Inconclusive>): Table {
    t.(insights := t.insights + FreshRows(found, t.nextId), inconclusives := t.inconclusives + incs,
       nextId := t.nextId + |found|)
  }

  lemma TwoOutcomes(t: Table, a: seq<Finding>, b: seq<Finding>, x: seq<Inconclusive>, y: seq<Inconclusive>)
    ensures WithOutcome(WithOutcome(t, a, x), b, y) == WithOutcome(t, a + b, x + y)
  {
    FreshConcat(a, b, t.nextId);
    AppendAssociates(t.insights, FreshRows(a, t.nextId), FreshRows(b, t.nextId + |a|));
    AppendAssociates(t.inconclusives, x, y);
  }

  lemma RebuiltIsStep(t: Table, rule: string, found: seq<Finding>, incs: seq<Inconclusive>)
    ensures var rows := Replaced(t.insights, rule, found, t.nextId);
      Step(t, RunRule(rule, found, incs)) ==
        Table(rows, WithoutInconclusive(t.inconclusives, rule) + incs,
              t.events + Diff(t.insights, rows, rule, t.nextRun), t.nextId + |found|, t.nextRun + 1)
  {
  }

  lemma AppendAssociates<T>(a: seq<T>, b: seq<T>, c: seq<T>)
    ensures (a + b) + c == a + (b + c)
  {
  }

  lemma FreshConcat(a: seq<Finding>, b: seq<Finding>, next: nat)
    ensures FreshRows(a + b, next) == FreshRows(a, next) + FreshRows(b, next + |a|)
  {
  }

  // ---------------------------------------------------------------- no finding without a proof

  /** The rule speaks about the resource it was asked about, under its own name, at most once. */
  ghost predicate SaneVerdicts(rule: string, input: Input) {
    forall id: nat :: input.verdict(id).Evaluated? ==>
      && |input.verdict(id).findings| <= 1
      && forall k :: 0 <= k < |input.verdict(id).findings| ==>
           input.verdict(id).findings[k].rule == rule && input.verdict(id).findings[k].resource == Some(id)
  }

  ghost predicate DistinctIds(rs: seq<Resource>) {
    forall i, j :: 0 <= i < j < |rs| ==> rs[i].id != rs[j].id
  }

  ghost predicate Fresh(input: Input, source: string, i: nat)
    requires i < |input.resources|
  {
    ScanProof.SomeFreshRun(input.runs, input.resources[i].scope, source, input.maxAge, input.at(i))
  }

  ghost predicate EverProven(input: Input, source: string, i: nat)
    requires i < |input.resources|
  {
    ScanProof.SomeFreshRun(input.runs, input.resources[i].scope, source, None, input.at(i))
  }

  lemma UnprovenIsInconclusive(rule: string, source: string, input: Input, i: nat)
    requires ScanProof.SuccessesAreFinished(input.runs) && i < |input.resources| && !Fresh(input, source, i)
    ensures OutcomeAt(rule, source, input, i) == Some(([],
      [Inconclusive(rule, input.resources[i].id, if EverProven(input, source, i) then STALE else NOT_PROVEN)]))
  {
    var r, now := input.resources[i], input.at(i);
    ScanProof.LatestIsFreshIffSomeIs(input.runs, r.scope, source, input.maxAge, now);
    ScanProof.LatestIsFreshIffSomeIs(input.runs, r.scope, source, None, now);
  }

  lemma FindingNeedsProof(rule: string, source: string, input: Input, i: nat)
    requires ScanProof.SuccessesAreFinished(input.runs) && i < |input.resources|
    requires OutcomeAt(rule, source, input, i).Some? && OutcomeAt(rule, source, input, i).value.0 != []
    ensures Fresh(input, source, i)
  {
    if !Fresh(input, source, i) {
      UnprovenIsInconclusive(rule, source, input, i);
    }
  }

  lemma {:induction false} FindingHasOutcome(o: nat -> Outcome, n: nat, k: nat) returns (i: nat, j: nat)
    requires k < |FindingsOf(o, n)|
    ensures i < n && j < |Found(o(i))| && FindingsOf(o, n)[k] == Found(o(i))[j]
  {
    var front := FindingsOf(o, n - 1);
    if k < |front| {
      i, j := FindingHasOutcome(o, n - 1, k);
    } else {
      i, j := n - 1, k - |front|;
    }
  }

  /** Every finding comes from a resource whose scope has a fresh proof. */
  lemma {:induction false} FindingsHaveProof(rule: string, source: string, input: Input, n: nat, k: nat)
    requires n <= |input.resources| && SaneVerdicts(rule, input) && ScanProof.SuccessesAreFinished(input.runs)
    requires k < |FindingsOf(OutcomesOf(rule, source, input), n)|
    ensures FindingsOf(OutcomesOf(rule, source, input), n)[k].rule == rule
    ensures exists i ::
      0 <= i < n && FindingsOf(OutcomesOf(rule, source, input), n)[k].resource == Some(input.resources[i].id) && Fresh(input, source, i)
  {
    var i, j := FindingHasOutcome(OutcomesOf(rule, source, input), n, k);
    FindingNeedsProof(rule, source, input, i);
    assert Found(OutcomeAt(rule, source, input, i))[j] == input.verdict(input.resources[i].id).findings[j];
  }

  lemma {:induction false} WithoutRuleHasNone(rows: seq<Row>, rule: string, k: nat)
    requires k < |WithoutRule(rows, rule)|
    ensures WithoutRule(rows, rule)[k].finding.rule != rule
  {
    var front := WithoutRule(rows[..|rows| - 1], rule);
    if k < |front| {
      WithoutRuleHasNone(rows[..|rows| - 1], rule, k);
      assert WithoutRule(rows, rule)[k] == front[k];
    }
  }

  /** After a run, every insight of the rule is about a resource whose scope some successful
      run of the rule's source proved within the freshness window. */
  lemma NoFindingWithoutFreshProof(t: Table, rule: string, source: string, input: Input, k: nat)
    requires SaneVerdicts(rule, input) && ScanProof.SuccessesAreFinished(input.runs)
    requires var v := Step(t, RunOp(rule, source, input)); k < |v.insights| && v.insights[k].finding.rule == rule
    ensures exists i ::
      && 0 <= i < |input.resources| && Fresh(input, source, i)
      && Step(t, RunOp(rule, source, input)).insights[k].finding.resource == Some(input.resources[i].id)
  {
    var kept := WithoutRule(t.insights, rule);
    var findings := FindingsOf(OutcomesOf(rule, source, input), |input.resources|);
    var row := Step(t, RunOp(rule, source, input)).insights[k];
    if k < |kept| {
      assert row.finding == kept[k].finding;
      WithoutRuleHasNone(t.insights, rule, k);
      assert false;
    }
    assert row.finding == findings[k - |kept|];
    FindingsHaveProof(rule, source, input, |input.resources|, k - |kept|);
  }

  function IncCount(rows: seq<Inconclusive>, rule: string, id: nat): nat {
    if rows == [] then 0
    else
      IncCount(rows[..|rows| - 1], rule, id)
      + if rows[|rows| - 1].rule == rule && rows[|rows| - 1].resource == id then 1 else 0
  }

  lemma {:induction false} IncConcat(a: seq<Inconclusive>, b: seq<Inconclusive>, rule: string, id: nat)
    ensures IncCount(a + b, rule, id) == IncCount(a, rule, id) + IncCount(b, rule, id)
  {
    if b == [] {
      assert a + b == a;
    } else {
      assert (a + b)[..|a + b| - 1] == a + b[..|b| - 1];
      IncConcat(a, b[..|b| - 1], rule, id);
    }
  }

  lemma {:induction false} WithoutInconclusiveHasNone(rows: seq<Inconclusive>, rule: string, id: nat)
    ensures IncCount(WithoutInconclusive(rows, rule), rule, id) == 0
  {
    if rows != [] {
      var front := WithoutInconclusive(rows[..|rows| - 1], rule);
      WithoutInconclusiveHasNone(rows[..|rows| - 1], rule, id);
      IncConcat(front, if rows[|rows| - 1].rule == rule then [] else [rows[|rows| - 1]], rule, id);
    }
  }

  lemma OutcomeIncCount(rule: string, source: string, input: Input, i: nat, id: nat)
    requires i < |input.resources| && OutcomeAt(rule, source, input, i).Some? && input.resources[i].id != id
    ensures IncCount(OutcomeAt(rule, source, input, i).value.1, rule, id) == 0
  {
    var incs := OutcomeAt(rule, source, input, i).value.1;
    assert incs == [] || (|incs| == 1 && incs[0].resource == input.resources[i].id);
  }

  lemma EmitsCount(rule: string, source: string, input: Input, m: nat, i: nat)
    requires m < |input.resources| && i < |input.resources| && DistinctIds(input.resources)
    requires ScanProof.SuccessesAreFinished(input.runs) && !Fresh(input, source, i)
    ensures IncCount(Unknown(OutcomeAt(rule, source, input, m)), rule, input.resources[i].id) == if i == m then 1 else 0
  {
    if i == m {
      UnprovenIsInconclusive(rule, source, input, i);
      var inc := Unknown(OutcomeAt(rule, source, input, i))[0];
      assert Unknown(OutcomeAt(rule, source, input, i)) == [inc];
      assert [inc][..0] == [];
    } else if OutcomeAt(rule, source, input, m).Some? {
      OutcomeIncCount(rule, source, input, m, input.resources[i].id);
    }
  }

  /** When only outcome `i` emits an inconclusive about the resource, and one, so do they all. */
  lemma {:induction false} OneInconclusive(rule: string, o: nat -> Outcome, n: nat, i: nat, id: nat)
    requires forall m: nat :: m < n ==> IncCount(Unknown(o(m)), rule, id) == if i == m then 1 else 0
    ensures IncCount(InconclusivesOf(o, n), rule, id) == if i < n then 1 else 0
  {
    if n > 0 {
      OneInconclusive(rule, o, n - 1, i, id);
      IncConcat(InconclusivesOf(o, n - 1), Unknown(o(n - 1)), rule, id);
    }
  }

  lemma {:induction false} EmittedIsThere(o: nat -> Outcome, n: nat, i: nat, inc: Inconclusive)
    requires i < n && inc in Unknown(o(i))
    ensures inc in InconclusivesOf(o, n)
  {
    if i < n - 1 {
      EmittedIsThere(o, n - 1, i, inc);
    }
  }

  /** A resource without a fresh proof has, after the run, no insight of the rule and exactly
      one inconclusive: not proven when no scan ever succeeded, stale when one did. */
  lemma UnprovenResourceIsInconclusive(t: Table, rule: string, source: string, input: Input, i: nat)
    requires SaneVerdicts(rule, input) && DistinctIds(input.resources) && ScanProof.SuccessesAreFinished(input.runs)
    requires i < |input.resources| && !Fresh(input, source, i)
    ensures var v := Step(t, RunOp(rule, source, input));
      var id := input.resources[i].id;
      && (forall k :: 0 <= k < |v.insights| && v.insights[k].finding.rule == rule ==> v.insights[k].finding.resource != Some(id))
      && IncCount(v.inconclusives, rule, id) == 1
      && Inconclusive(rule, id, if EverProven(input, source, i) then ["scope_stale"] else ["scope_not_proven"]) in v.inconclusives
  {
    var v := Step(t, RunOp(rule, source, input));
    var id := input.resources[i].id;
    forall k | 0 <= k < |v.insights| && v.insights[k].finding.rule == rule ensures v.insights[k].finding.resource != Some(id) {
      NoFindingWithoutFreshProof(t, rule, source, input, k);
    }
    var n := |input.resources|;
    var o := OutcomesOf(rule, source, input);
    forall m: nat | m < n ensures IncCount(Unknown(o(m)), rule, id) == if i == m then 1 else 0 {
      EmitsCount(rule, source, input, m, i);
    }
    OneInconclusive(rule, o, n, i, id);
    UnprovenIsInconclusive(rule, source, input, i);
    EmittedIsThere(o, n, i, Inconclusive(rule, id, if EverProven(input, source, i) then STALE else NOT_PROVEN));
    WithoutInconclusiveHasNone(t.inconclusives, rule, id);
    IncConcat(WithoutInconclusive(t.inconclusives, rule), InconclusivesOf(OutcomesOf(rule, source, input), n), rule, id);
  }

  // ---------------------------------------------------------------- a run is a resource run

  lemma FoundIsOwn(rule: string, source: string, input: Input, i: nat)
    requires i < |input.resources| && SaneVerdicts(rule, input)
    ensures var fs := Found(OutcomeAt(rule, source, input, i));
      fs == [] || (|fs| == 1 && StableIdOf(fs[0]) == ResourceGap(rule, input.resources[i].id))
  {
    var fs := Found(OutcomeAt(rule, source, input, i));
    if fs != [] {
      assert fs == input.verdict(input.resources[i].id).findings;
    }
  }

  lemma CountOneMore(front: seq<Finding>, fs: seq<Finding>, g: Gap)
    requires |fs| <= 1
    ensures AckCarryOver.FindingCount(front + fs, g)
      == AckCarryOver.FindingCount(front, g) + if fs != [] && StableIdOf(fs[0]) == g then 1 else 0
  {
    if fs == [] {
      assert front + fs == front;
    } else {
      assert (front + fs)[..|front|] == front;
    }
  }

  function Emissions(o: nat -> Outcome, n: nat, g: Gap): nat {
    if n == 0 then 0 else Emissions(o, n - 1, g) + EmissionsOf(o(n - 1), g)
  }

  function EmissionsOf(o: Outcome, g: Gap): nat { if Found(o) != [] && StableIdOf(Found(o)[0]) == g then 1 else 0 }

  lemma {:induction false} EmissionsAreCounted(o: nat -> Outcome, n: nat, g: Gap)
    requires forall i: nat :: i < n ==> |Found(o(i))| <= 1
    ensures AckCarryOver.FindingCount(FindingsOf(o, n), g) == Emissions(o, n, g)
  {
    if n > 0 {
      EmissionsAreCounted(o, n - 1, g);
      CountOneMore(FindingsOf(o, n - 1), Found(o(n - 1)), g);
    }
  }

  /** With at most one resource that emits the gap, it is emitted at most once. */
  lemma {:induction false} AtMostOneEmission(o: nat -> Outcome, n: nat, g: Gap)
    requires forall i: nat, j: nat :: i < j < n ==> EmissionsOf(o(i), g) == 0 || EmissionsOf(o(j), g) == 0
    ensures Emissions(o, n, g) <= 1
    ensures Emissions(o, n, g) == 0 <==> forall i: nat :: i < n ==> EmissionsOf(o(i), g) == 0
  {
    if n > 0 {
      AtMostOneEmission(o, n - 1, g);
    }
  }

  lemma FindingsAreCounted(rule: string, source: string, input: Input, n: nat, g: Gap)
    requires n <= |input.resources| && SaneVerdicts(rule, input) && DistinctIds(input.resources)
    ensures AckCarryOver.FindingCount(FindingsOf(OutcomesOf(rule, source, input), n), g) <= 1
  {
    var o := OutcomesOf(rule, source, input);
    forall i: nat | i < n ensures Found(o(i)) == [] || (|Found(o(i))| == 1 && StableIdOf(Found(o(i))[0]) == ResourceGap(rule, input.resources[i].id)) {
      FoundIsOwn(rule, source, input, i);
    }
    EmissionsAreCounted(o, n, g);
    AtMostOneEmission(o, n, g);
  }

  /** What the runner emits meets the assumption under which the acks are carried over. */
  lemma RunIsAResourceRun(rule: string, source: string, input: Input)
    requires SaneVerdicts(rule, input) && DistinctIds(input.resources) && ScanProof.SuccessesAreFinished(input.runs)
    ensures AckCarryOver.OneEach(RunOp(rule, source, input)) && OwnFindings(RunOp(rule, source, input))
    ensures forall k :: 0 <= k < |RunOp(rule, source, input).findings| ==> RunOp(rule, source, input).findings[k].resource.Some?
  {
    var n := |input.resources|;
    var fs := FindingsOf(OutcomesOf(rule, source, input), n);
    forall g ensures AckCarryOver.FindingCount(fs, g) <= 1 { FindingsAreCounted(rule, source, input, n, g); }
    forall k | 0 <= k < |fs| ensures fs[k].rule == rule && fs[k].resource.Some? {
      FindingsHaveProof(rule, source, input, n, k);
    }
  }
}

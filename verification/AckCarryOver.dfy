/** Operator acknowledgments across delete-and-replace: the wiped and rebuilt table behaves
    like a table keyed by gap that was never wiped. Sources:
    apps/api/src/constat_api/repositories/insights.py and insights/runner.py. */
module AckCarryOver {
  import opened Wrappers
  import opened RuleRuns

  // ---------------------------------------------------------------- rows by gap

  function GapCount(rows: seq<Row>, g: Gap): nat {
    if rows == [] then 0
    else GapCount(rows[..|rows| - 1], g) + Bit(StableIdOf(rows[|rows| - 1].finding) == g)
  }

  function FindingCount(findings: seq<Finding>, g: Gap): nat {
    if findings == [] then 0
    else FindingCount(findings[..|findings| - 1], g) + Bit(StableIdOf(findings[|findings| - 1]) == g)
  }

  function IdCount(rows: seq<Row>, id: nat): nat {
    if rows == [] then 0 else IdCount(rows[..|rows| - 1], id) + Bit(rows[|rows| - 1].id == id)
  }

  /** The ack of the gap's row, if it has one. */
  function AckOf(rows: seq<Row>, g: Gap): Option<Ack> {
    if rows == [] then None
    else if StableIdOf(rows[|rows| - 1].finding) == g then rows[|rows| - 1].ack
    else AckOf(rows[..|rows| - 1], g)
  }

  /** Whether the row with this id is a row of the gap. */
  predicate Targets(rows: seq<Row>, id: nat, g: Gap) {
    exists i :: 0 <= i < |rows| && rows[i].id == id && StableIdOf(rows[i].finding) == g
  }

  // ---------------------------------------------------------------- the table that is never wiped

  type Kept = map<Gap, Option<Ack>>

  function KeptOf(rows: seq<Row>): Kept {
    if rows == [] then map[]
    else
      var front, r := KeptOf(rows[..|rows| - 1]), rows[|rows| - 1];
      if r.finding.resource.Some? then front[StableIdOf(r.finding) := r.ack] else front
  }

  /** A run edits the kept table in place: it drops the rule's gaps it did not emit, keeps the
      others as they are, acks included, and adds the new ones without an ack. A patch sets the
      ack of the one gap it targets. */
  function KeptStep(kept: Kept, t: Table, op: Op): Kept {
    match op
    case RunRule(rule, findings, _) =>
      var gaps := (set g | g in kept && g.ResourceGap? && g.rule != rule)
                + (set i | 0 <= i < |findings| && findings[i].resource.Some? :: StableIdOf(findings[i]));
      map g | g in gaps :: if g in kept then kept[g] else None
    case Patch(id, ack) =>
      if ack.status in ACK_STATUSES then
        map g | g in kept :: if Targets(t.insights, id, g) then Some(ack) else kept[g]
      else kept
  }

  function KeptRun(kept: Kept, t: Table, ops: seq<Op>): Kept
    decreases ops
  {
    if ops == [] then kept else KeptRun(KeptStep(kept, t, ops[0]), Step(t, ops[0]), ops[1..])
  }

  /** A run emits findings of its own rule, and at most one about each resource. Account rules,
      which emit none about resources, are runs of this kind. */
  ghost predicate OneEach(op: Op) {
    op.RunRule? ==>
      && (forall i :: 0 <= i < |op.findings| ==> op.findings[i].rule == op.rule)
      && (forall g: Gap :: g.ResourceGap? ==> FindingCount(op.findings, g) <= 1)
  }

  ghost predicate AllOneEach(ops: seq<Op>) { forall k :: 0 <= k < |ops| ==> OneEach(ops[k]) }

  ghost predicate UniqueIds(t: Table) { forall id: nat :: IdCount(t.insights, id) <= Bit(id < t.nextId) }

  /** One row per resource gap and one per id; account rows may share a gap. */
  ghost predicate TableOk(t: Table) {
    (forall g: Gap :: g.ResourceGap? ==> GapCount(t.insights, g) <= 1) && UniqueIds(t)
  }

  // ---------------------------------------------------------------- counting rows

  lemma {:induction false} CountConcat(a: seq<Row>, b: seq<Row>, g: Gap, id: nat)
    ensures GapCount(a + b, g) == GapCount(a, g) + GapCount(b, g)
    ensures IdCount(a + b, id) == IdCount(a, id) + IdCount(b, id)
    ensures AckOf(a + b, g) == if GapCount(b, g) > 0 then AckOf(b, g) else AckOf(a, g)
  {
    if b == [] {
      assert a + b == a;
    } else {
      assert (a + b)[..|a + b| - 1] == a + b[..|b| - 1];
      CountConcat(a, b[..|b| - 1], g, id);
    }
  }

  lemma WithoutRuleLast(rows: seq<Row>, rule: string)
    requires rows != []
    ensures var front, kept := WithoutRule(rows[..|rows| - 1], rule), WithoutRule(rows, rule);
      if rows[|rows| - 1].finding.rule == rule then kept == front
      else kept != [] && kept[..|kept| - 1] == front && kept[|kept| - 1] == rows[|rows| - 1]
  {
  }

  lemma {:induction false} WithoutRuleCounts(rows: seq<Row>, rule: string, g: Gap, id: nat)
    requires g.ResourceGap?
    ensures var kept := WithoutRule(rows, rule);
      && GapCount(kept, g) == (if g.rule == rule then 0 else GapCount(rows, g))
      && IdCount(kept, id) <= IdCount(rows, id)
  {
    if rows != [] {
      WithoutRuleCounts(rows[..|rows| - 1], rule, g, id);
      WithoutRuleLast(rows, rule);
    }
  }

  lemma {:induction false} WithoutRuleAcks(rows: seq<Row>, rule: string, g: Gap)
    requires g.ResourceGap? && g.rule != rule
    ensures AckOf(WithoutRule(rows, rule), g) == AckOf(rows, g)
  {
    if rows != [] {
      WithoutRuleAcks(rows[..|rows| - 1], rule, g);
      WithoutRuleLast(rows, rule);
    }
  }

  lemma {:induction false} FreshCounts(findings: seq<Finding>, next: nat, g: Gap, id: nat)
    ensures var rows := FreshRows(findings, next);
      && GapCount(rows, g) == FindingCount(findings, g)
      && IdCount(rows, id) == Bit(next <= id < next + |findings|)
      && AckOf(rows, g) == None
  {
    if findings != [] {
      FreshCounts(findings[..|findings| - 1], next, g, id);
      var rows := FreshRows(findings, next);
      assert rows[..|rows| - 1] == FreshRows(findings[..|findings| - 1], next);
    }
  }

  lemma {:induction false} WithAcksCounts(rows: seq<Row>, rule: string, snapshot: map<Gap, Ack>, g: Gap, id: nat)
    requires g.ResourceGap?
    ensures var v := WithAcks(rows, rule, snapshot);
      && GapCount(v, g) == GapCount(rows, g) && IdCount(v, id) == IdCount(rows, id)
      && AckOf(v, g) == (if GapCount(rows, g) > 0 && g.rule == rule && AckOf(rows, g).None? && g in snapshot
                         then Some(snapshot[g]) else AckOf(rows, g))
  {
    if rows != [] {
      var v := WithAcks(rows, rule, snapshot);
      assert v[..|v| - 1] == WithAcks(rows[..|rows| - 1], rule, snapshot);
      WithAcksCounts(rows[..|rows| - 1], rule, snapshot, g, id);
      NoneIfAbsent(rows[..|rows| - 1], g);
    }
  }

  lemma {:induction false} NoneWithoutRow(rows: seq<Row>, g: Gap)
    requires GapCount(rows, g) == 0
    ensures AckOf(rows, g) == None
  {
    if rows != [] {
      NoneWithoutRow(rows[..|rows| - 1], g);
    }
  }

  /** With one row per gap, the snapshot holds exactly the acks the table holds. */
  lemma {:induction false} SnapshotIsFaithful(rows: seq<Row>, rule: string, g: Gap)
    requires GapCount(rows, g) <= 1 && g.ResourceGap? && g.rule == rule
    ensures g in AckSnapshot(rows, rule) <==> AckOf(rows, g).Some?
    ensures g in AckSnapshot(rows, rule) ==> AckOf(rows, g) == Some(AckSnapshot(rows, rule)[g])
  {
    if rows != [] {
      SnapshotIsFaithful(rows[..|rows| - 1], rule, g);
      if StableIdOf(rows[|rows| - 1].finding) == g {
        NoneWithoutRow(rows[..|rows| - 1], g);
      }
    }
  }

  lemma {:induction false} PatchedCounts(rows: seq<Row>, id: nat, ack: Ack, g: Gap, x: nat)
    requires GapCount(rows, g) <= 1
    ensures var v := Patched(rows, id, ack);
      && GapCount(v, g) == GapCount(rows, g) && IdCount(v, x) == IdCount(rows, x)
      && AckOf(v, g) == (if Targets(rows, id, g) then Some(ack) else AckOf(rows, g))
  {
    if rows != [] {
      var front, r := rows[..|rows| - 1], rows[|rows| - 1];
      var v := Patched(rows, id, ack);
      assert v[..|v| - 1] == Patched(front, id, ack);
      PatchedCounts(front, id, ack, g, x);
      if Targets(rows, id, g) {
        var i :| 0 <= i < |rows| && rows[i].id == id && StableIdOf(rows[i].finding) == g;
        if i < |front| {
          assert front[i] == rows[i];
          TargetIsCounted(front, i, g);
        }
      }
      if Targets(front, id, g) {
        var i :| 0 <= i < |front| && front[i].id == id && StableIdOf(front[i].finding) == g;
        assert rows[i] == front[i];
      }
    }
  }

  lemma {:induction false} TargetIsCounted(rows: seq<Row>, i: nat, g: Gap)
    requires i < |rows| && StableIdOf(rows[i].finding) == g
    ensures GapCount(rows, g) > 0
  {
    if i < |rows| - 1 {
      assert rows[..|rows| - 1][i] == rows[i];
      TargetIsCounted(rows[..|rows| - 1], i, g);
    }
  }

  lemma {:induction false} KeptIsPointwise(rows: seq<Row>, g: Gap)
    ensures g in KeptOf(rows) <==> g.ResourceGap? && GapCount(rows, g) > 0
    ensures g in KeptOf(rows) ==> KeptOf(rows)[g] == AckOf(rows, g)
  {
    if rows != [] {
      KeptIsPointwise(rows[..|rows| - 1], g);
    }
  }

  lemma {:induction false} FindingIsCounted(findings: seq<Finding>, g: Gap)
    ensures FindingCount(findings, g) > 0 <==> exists i :: 0 <= i < |findings| && StableIdOf(findings[i]) == g
  {
    if findings != [] {
      var front := findings[..|findings| - 1];
      FindingIsCounted(front, g);
      if exists i :: 0 <= i < |front| && StableIdOf(front[i]) == g {
        var i :| 0 <= i < |front| && StableIdOf(front[i]) == g;
        assert findings[i] == front[i];
      }
      if exists i :: 0 <= i < |findings| && StableIdOf(findings[i]) == g {
        var i :| 0 <= i < |findings| && StableIdOf(findings[i]) == g;
        if i < |front| { assert front[i] == findings[i]; }
      }
    }
  }

  // ---------------------------------------------------------------- one step

  /** One gap through one run: present exactly when the run emits it, or it belongs to another
      rule; with the ack it had before, and none if it was not there. */
  lemma RunOnGap(t: Table, rule: string, findings: seq<Finding>, g: Gap)
    requires TableOk(t) && OneEach(RunRule(rule, findings, [])) && g.ResourceGap?
    ensures var rows := Replaced(t.insights, rule, findings, t.nextId);
      && GapCount(rows, g) ==
           (if g.rule == rule then FindingCount(findings, g) else GapCount(t.insights, g))
      && AckOf(rows, g) == if GapCount(rows, g) > 0 then AckOf(t.insights, g) else None
  {
    var kept, added := WithoutRule(t.insights, rule), FreshRows(findings, t.nextId);
    var snapshot := AckSnapshot(t.insights, rule);
    var rows := Replaced(t.insights, rule, findings, t.nextId);
    WithoutRuleCounts(t.insights, rule, g, 0);
    FreshCounts(findings, t.nextId, g, 0);
    CountConcat(kept, added, g, 0);
    WithAcksCounts(kept + added, rule, snapshot, g, 0);
    FindingIsCounted(findings, g);
    if g.rule == rule {
      SnapshotIsFaithful(t.insights, rule, g);
    } else {
      WithoutRuleAcks(t.insights, rule, g);
    }
    if GapCount(rows, g) == 0 {
      NoneWithoutRow(rows, g);
    }
  }

  lemma RunKeepsIds(t: Table, rule: string, findings: seq<Finding>, id: nat)
    requires TableOk(t) && OneEach(RunRule(rule, findings, []))
    ensures IdCount(Replaced(t.insights, rule, findings, t.nextId), id) <= Bit(id < t.nextId + |findings|)
  {
    var kept, added := WithoutRule(t.insights, rule), FreshRows(findings, t.nextId);
    var g := ResourceGap("", 0);
    assert IdCount(t.insights, id) <= Bit(id < t.nextId);
    WithoutRuleCounts(t.insights, rule, g, id);
    FreshCounts(findings, t.nextId, g, id);
    CountConcat(kept, added, g, id);
    WithAcksCounts(kept + added, rule, AckSnapshot(t.insights, rule), g, id);
  }

  lemma RunKeepsTable(t: Table, op: Op)
    requires TableOk(t) && OneEach(op) && op.RunRule?
    ensures TableOk(Step(t, op))
  {
    var rows := Replaced(t.insights, op.rule, op.findings, t.nextId);
    forall g: Gap | g.ResourceGap? ensures GapCount(rows, g) <= 1 {
      RunOnGap(t, op.rule, op.findings, g);
      assert GapCount(t.insights, g) <= 1 && FindingCount(op.findings, g) <= 1;
    }
    forall id: nat ensures IdCount(rows, id) <= Bit(id < t.nextId + |op.findings|) {
      RunKeepsIds(t, op.rule, op.findings, id);
    }
  }

  lemma PatchKeepsTable(t: Table, op: Op)
    requires TableOk(t) && op.Patch?
    ensures TableOk(Step(t, op))
  {
    var rows := Patched(t.insights, op.id, op.ack);
    forall g: Gap | g.ResourceGap? ensures GapCount(rows, g) <= 1 {
      assert GapCount(t.insights, g) <= 1;
      PatchedCounts(t.insights, op.id, op.ack, g, 0);
    }
    forall x: nat ensures IdCount(rows, x) <= Bit(x < t.nextId) {
      var g := ResourceGap("", 0);
      assert GapCount(t.insights, g) <= 1 && IdCount(t.insights, x) <= Bit(x < t.nextId);
      PatchedCounts(t.insights, op.id, op.ack, g, x);
    }
  }

  lemma StepKeepsTable(t: Table, op: Op)
    requires TableOk(t) && OneEach(op)
    ensures TableOk(Step(t, op))
  {
    if op.RunRule? { RunKeepsTable(t, op); } else { PatchKeepsTable(t, op); }
  }

  lemma RunSimulates(t: Table, op: Op, g: Gap)
    requires TableOk(t) && OneEach(op) && op.RunRule?
    ensures var next := KeptStep(KeptOf(t.insights), t, op);
      var v := KeptOf(Step(t, op).insights);
      (g in v <==> g in next) && (g in next ==> v[g] == next[g])
  {
    KeptIsPointwise(t.insights, g);
    KeptIsPointwise(Step(t, op).insights, g);
    if g.ResourceGap? {
      RunOnGap(t, op.rule, op.findings, g);
      FindingIsCounted(op.findings, g);
      NoneIfAbsent(t.insights, g);
    }
  }

  lemma PatchSimulates(t: Table, op: Op, g: Gap)
    requires TableOk(t) && op.Patch?
    ensures var next := KeptStep(KeptOf(t.insights), t, op);
      var v := KeptOf(Step(t, op).insights);
      (g in v <==> g in next) && (g in next ==> v[g] == next[g])
  {
    KeptIsPointwise(t.insights, g);
    KeptIsPointwise(Step(t, op).insights, g);
    if g.ResourceGap? { PatchedCounts(t.insights, op.id, op.ack, g, 0); }
  }

  /** The simulation: a step of the wiped table is a step of the kept table. */
  lemma StepSimulates(t: Table, op: Op)
    requires TableOk(t) && OneEach(op)
    ensures KeptOf(Step(t, op).insights) == KeptStep(KeptOf(t.insights), t, op)
  {
    var v, next := KeptOf(Step(t, op).insights), KeptStep(KeptOf(t.insights), t, op);
    forall g ensures g in v <==> g in next ensures g in next ==> g in v && v[g] == next[g] {
      if op.RunRule? { RunSimulates(t, op, g); } else { PatchSimulates(t, op, g); }
    }
  }

  lemma NoneIfAbsent(rows: seq<Row>, g: Gap)
    ensures GapCount(rows, g) == 0 ==> AckOf(rows, g) == None
  {
    if GapCount(rows, g) == 0 { NoneWithoutRow(rows, g); }
  }

  // ---------------------------------------------------------------- account gaps

  /** Some row of the rule about this gap is acked. */
  ghost predicate GapAcked(rows: seq<Row>, rule: string, g: Gap) {
    exists i :: 0 <= i < |rows| && rows[i].finding.rule == rule && rows[i].ack.Some? && StableIdOf(rows[i].finding) == g
  }

  lemma {:induction false} SnapshotMembers(rows: seq<Row>, rule: string, g: Gap)
    ensures g in AckSnapshot(rows, rule) <==> GapAcked(rows, rule, g)
  {
    if rows != [] {
      var front := rows[..|rows| - 1];
      SnapshotMembers(front, rule, g);
      if GapAcked(front, rule, g) {
        var i :| 0 <= i < |front| && front[i].finding.rule == rule && front[i].ack.Some? && StableIdOf(front[i].finding) == g;
        assert rows[i] == front[i];
      }
      if GapAcked(rows, rule, g) {
        var i :| 0 <= i < |rows| && rows[i].finding.rule == rule && rows[i].ack.Some? && StableIdOf(rows[i].finding) == g;
        if i < |front| { assert front[i] == rows[i]; }
      }
    }
  }

  /** Any fresh row, about a resource or an account, is acked after the run exactly when some row
      of its gap was acked before; account rows that share a gap therefore share the ack. */
  lemma AckedExactlyWhenItsGapWas(rows: seq<Row>, rule: string, findings: seq<Finding>, next: nat, k: nat)
    requires k < |findings| && findings[k].rule == rule
    ensures var row := Replaced(rows, rule, findings, next)[|WithoutRule(rows, rule)| + k];
      && row.finding == findings[k] && row.id == next + k
      && (row.ack.Some? <==> GapAcked(rows, rule, StableIdOf(findings[k])))
  {
    SnapshotMembers(rows, rule, StableIdOf(findings[k]));
  }

  /** A run that emits nothing about resources meets the assumption of the results below. */
  lemma AccountRunIsOneEach(rule: string, findings: seq<Finding>, incs: seq<Inconclusive>)
    requires forall i :: 0 <= i < |findings| ==> findings[i].rule == rule && findings[i].resource.None?
    ensures OneEach(RunRule(rule, findings, incs))
  {
    forall g: Gap | g.ResourceGap? ensures FindingCount(findings, g) <= 1 {
      FindingIsCounted(findings, g);
    }
  }

  // ---------------------------------------------------------------- every history

  /** Any sequence of runs of any rules and patches of any rows, on a table that may also hold
      account rows, is for the resource gaps the same sequence on the table that was never
      wiped. */
  lemma {:induction false} HistoriesSimulate(t: Table, ops: seq<Op>)
    requires TableOk(t) && AllOneEach(ops)
    ensures KeptOf(RunAll(t, ops).insights) == KeptRun(KeptOf(t.insights), t, ops)
    ensures TableOk(RunAll(t, ops))
    decreases ops
  {
    if ops != [] {
      StepSimulates(t, ops[0]);
      StepKeepsTable(t, ops[0]);
      HistoriesSimulate(Step(t, ops[0]), ops[1..]);
    }
  }

  /** A patch never reaches two gaps. */
  lemma PatchHasOneTarget(t: Table, id: nat, g: Gap, h: Gap)
    requires UniqueIds(t) && Targets(t.insights, id, g) && Targets(t.insights, id, h)
    ensures g == h
  {
    var i :| 0 <= i < |t.insights| && t.insights[i].id == id && StableIdOf(t.insights[i].finding) == g;
    var j :| 0 <= j < |t.insights| && t.insights[j].id == id && StableIdOf(t.insights[j].finding) == h;
    assert IdCount(t.insights, id) <= 1;
    if i < j { TwoIds(t.insights, i, j, id); }
    if j < i { TwoIds(t.insights, j, i, id); }
  }

  lemma {:induction false} OneId(rows: seq<Row>, i: nat, id: nat)
    requires i < |rows| && rows[i].id == id
    ensures IdCount(rows, id) >= 1
  {
    if i < |rows| - 1 {
      assert rows[..|rows| - 1][i] == rows[i];
      OneId(rows[..|rows| - 1], i, id);
    }
  }

  lemma {:induction false} TwoIds(rows: seq<Row>, i: nat, j: nat, id: nat)
    requires i < j < |rows| && rows[i].id == id && rows[j].id == id
    ensures IdCount(rows, id) >= 2
  {
    var front := rows[..|rows| - 1];
    assert front[i] == rows[i];
    if j < |rows| - 1 {
      assert front[j] == rows[j];
      TwoIds(front, i, j, id);
    } else {
      OneId(front, i, id);
    }
  }

  ghost predicate NoPatchOn(t: Table, ops: seq<Op>, g: Gap)
    decreases ops
  {
    ops == [] || ((ops[0].Patch? ==> !Targets(t.insights, ops[0].id, g)) && NoPatchOn(Step(t, ops[0]), ops[1..], g))
  }

  /** Every run of the gap's rule emits it. */
  ghost predicate AlwaysEmitted(ops: seq<Op>, g: Gap) {
    g.ResourceGap? && forall k :: 0 <= k < |ops| && ops[k].RunRule? && ops[k].rule == g.rule ==> FindingCount(ops[k].findings, g) > 0
  }

  lemma StepOnAck(t: Table, op: Op, g: Gap)
    requires TableOk(t) && OneEach(op) && g.ResourceGap? && (op.Patch? ==> !Targets(t.insights, op.id, g))
    ensures AckOf(Step(t, op).insights, g) ==
      if op.RunRule? && op.rule == g.rule && FindingCount(op.findings, g) == 0 then None else AckOf(t.insights, g)
  {
    NoneIfAbsent(t.insights, g);
    match op {
      case RunRule(rule, findings, _) => RunOnGap(t, rule, findings, g);
      case Patch(id, ack) =>
        assert GapCount(t.insights, g) <= 1;
        PatchedCounts(t.insights, id, ack, g, 0);
    }
  }

  lemma {:induction false} NoAckFromNowhere(t: Table, ops: seq<Op>, g: Gap)
    requires TableOk(t) && AllOneEach(ops) && NoPatchOn(t, ops, g) && g.ResourceGap? && AckOf(t.insights, g) == None
    ensures AckOf(RunAll(t, ops).insights, g) == None
    decreases ops
  {
    if ops != [] {
      StepOnAck(t, ops[0], g);
      StepKeepsTable(t, ops[0]);
      NoAckFromNowhere(Step(t, ops[0]), ops[1..], g);
    }
  }

  /** The life of a decision: an ack given to a gap and not touched by another patch is still
      there after any history exactly when every run of its rule emitted the gap. Once one run
      omits it the ack is gone for good, also when the gap comes back. */
  lemma {:induction false} AckLivesExactlyWhileEmitted(t: Table, ops: seq<Op>, g: Gap, ack: Ack)
    requires TableOk(t) && AllOneEach(ops) && NoPatchOn(t, ops, g) && g.ResourceGap? && AckOf(t.insights, g) == Some(ack)
    ensures AckOf(RunAll(t, ops).insights, g) == if AlwaysEmitted(ops, g) then Some(ack) else None
    decreases ops
  {
    if ops != [] {
      var op := ops[0];
      StepOnAck(t, op, g);
      StepKeepsTable(t, op);
      if op.RunRule? && op.rule == g.rule && FindingCount(op.findings, g) == 0 {
        NoAckFromNowhere(Step(t, op), ops[1..], g);
      } else {
        AckLivesExactlyWhileEmitted(Step(t, op), ops[1..], g, ack);
        assert AlwaysEmitted(ops, g) <==> AlwaysEmitted(ops[1..], g) by {
          forall k | 0 < k < |ops| ensures ops[k] == ops[1..][k - 1] {}
        }
      }
    }
  }
}

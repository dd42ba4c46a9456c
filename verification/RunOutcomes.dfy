/** What a rule run leaves about each resource, from its facts, its scans and the rule's verdict
    alone (`run_resource_rule` in apps/api/src/constat_api/insights/runner.py). */
module RunOutcomes {
  import opened Wrappers
  import opened RuleRuns
  import opened InsightRunner
  import ScanProof

  /** The rule speaks under its own name about the resource it was asked about, as often as it
      likes. */
  ghost predicate OwnVerdicts(rule: string, input: Input) {
    forall id: nat :: input.verdict(id).Evaluated? ==>
      forall k :: 0 <= k < |input.verdict(id).findings| ==>
        input.verdict(id).findings[k].rule == rule && input.verdict(id).findings[k].resource == Some(id)
  }

  function About(fs: seq<Finding>, rule: string, id: nat): seq<Finding> {
    if fs == [] then []
    else
      About(fs[..|fs| - 1], rule, id)
      + if fs[|fs| - 1].rule == rule && fs[|fs| - 1].resource == Some(id) then [fs[|fs| - 1]] else []
  }

  /** The findings of the rows of the rule about the resource, in order. */
  function RowsAbout(rows: seq<Row>, rule: string, id: nat): seq<Finding> {
    if rows == [] then []
    else
      var f := rows[|rows| - 1].finding;
      RowsAbout(rows[..|rows| - 1], rule, id) + if f.rule == rule && f.resource == Some(id) then [f] else []
  }

  // ---------------------------------------------------------------- from findings to rows

  lemma {:induction false} AboutConcat(a: seq<Finding>, b: seq<Finding>, rule: string, id: nat)
    ensures About(a + b, rule, id) == About(a, rule, id) + About(b, rule, id)
  {
    if b == [] {
      assert a + b == a;
    } else {
      assert (a + b)[..|a + b| - 1] == a + b[..|b| - 1];
      AboutConcat(a, b[..|b| - 1], rule, id);
    }
  }

  lemma {:induction false} AboutAll(fs: seq<Finding>, rule: string, id: nat)
    requires forall k :: 0 <= k < |fs| ==> fs[k].rule == rule && fs[k].resource == Some(id)
    ensures About(fs, rule, id) == fs
  {
    if fs != [] {
      AboutAll(fs[..|fs| - 1], rule, id);
    }
  }

  lemma {:induction false} AboutNone(fs: seq<Finding>, rule: string, id: nat)
    requires forall k :: 0 <= k < |fs| ==> fs[k].resource != Some(id)
    ensures About(fs, rule, id) == []
  {
    if fs != [] {
      AboutNone(fs[..|fs| - 1], rule, id);
    }
  }

  /** The rows of a rule are its fresh findings and nothing else. */
  lemma {:induction false} RowsAreFindings(rows: seq<Row>, rule: string, id: nat)
    ensures RowsAbout(rows, rule, id) == About(FindingsIn(rows), rule, id)
  {
    if rows != [] {
      RowsAreFindings(rows[..|rows| - 1], rule, id);
      assert FindingsIn(rows)[..|rows| - 1] == FindingsIn(rows[..|rows| - 1]);
    }
  }

  function FindingsIn(rows: seq<Row>): (r: seq<Finding>)
    ensures |r| == |rows|
  {
    seq(|rows|, k requires 0 <= k < |rows| => rows[k].finding)
  }

  lemma ReplacedFindings(rows: seq<Row>, rule: string, findings: seq<Finding>, next: nat)
    ensures FindingsIn(Replaced(rows, rule, findings, next)) == FindingsIn(WithoutRule(rows, rule)) + findings
  {
  }

  lemma OldRowsAreGone(rows: seq<Row>, rule: string, id: nat)
    ensures About(FindingsIn(WithoutRule(rows, rule)), rule, id) == []
  {
    var kept := WithoutRule(rows, rule);
    forall k | 0 <= k < |kept| ensures kept[k].finding.rule != rule { WithoutRuleHasNone(rows, rule, k); }
    AboutOtherRules(FindingsIn(kept), rule, id);
  }

  lemma {:induction false} AboutOtherRules(fs: seq<Finding>, rule: string, id: nat)
    requires forall k :: 0 <= k < |fs| ==> fs[k].rule != rule
    ensures About(fs, rule, id) == []
  {
    if fs != [] {
      AboutOtherRules(fs[..|fs| - 1], rule, id);
    }
  }

  lemma RowsAboutAreFresh(t: Table, rule: string, findings: seq<Finding>, incs: seq<Inconclusive>, id: nat)
    ensures RowsAbout(Step(t, RunRule(rule, findings, incs)).insights, rule, id) == About(findings, rule, id)
  {
    RowsAreFindings(Replaced(t.insights, rule, findings, t.nextId), rule, id);
    ReplacedFindings(t.insights, rule, findings, t.nextId);
    OldRowsAreGone(t.insights, rule, id);
    AboutConcat(FindingsIn(WithoutRule(t.insights, rule)), findings, rule, id);
  }

  // ---------------------------------------------------------------- one resource in the loop

  /** When only outcome `i` speaks about the resource, what all of them say about it is what it
      says. */
  lemma {:induction false} OneSpeaks(o: nat -> Outcome, n: nat, i: nat, rule: string, id: nat)
    requires forall m: nat :: m < n && m != i ==> About(Found(o(m)), rule, id) == []
    ensures About(FindingsOf(o, n), rule, id) == if i < n then About(Found(o(i)), rule, id) else []
  {
    if n > 0 {
      OneSpeaks(o, n - 1, i, rule, id);
      AboutConcat(FindingsOf(o, n - 1), Found(o(n - 1)), rule, id);
    }
  }

  lemma OthersSpeakOfOthers(rule: string, source: string, input: Input, m: nat, i: nat)
    requires m < |input.resources| && i < |input.resources| && m != i && OwnVerdicts(rule, input) && DistinctIds(input.resources)
    ensures About(Found(OutcomesOf(rule, source, input)(m)), rule, input.resources[i].id) == []
    ensures IncCount(Unknown(OutcomesOf(rule, source, input)(m)), rule, input.resources[i].id) == 0
  {
    var o := OutcomeAt(rule, source, input, m);
    AboutNone(Found(o), rule, input.resources[i].id);
    if o.Some? { OutcomeIncCount(rule, source, input, m, input.resources[i].id); }
  }

  /** What evaluating a freshly proven resource gives, case by case. */
  lemma FreshOutcome(rule: string, source: string, input: Input, i: nat)
    requires i < |input.resources| && ScanProof.SuccessesAreFinished(input.runs) && Fresh(input, source, i)
    ensures var id, o := input.resources[i].id, OutcomesOf(rule, source, input)(i);
      && (!input.hasFacts(id) ==> o == Some(([], [Inconclusive(rule, id, ["<no facts>"])])))
      && (input.hasFacts(id) && input.verdict(id).Raises? ==> o == None)
      && (input.hasFacts(id) && input.verdict(id).Evaluated? ==>
            o == Some((input.verdict(id).findings,
                       if input.verdict(id).reasons == [] then [] else [Inconclusive(rule, id, input.verdict(id).reasons)])))
  {
    ScanProof.LatestIsFreshIffSomeIs(input.runs, input.resources[i].scope, source, input.maxAge, input.at(i));
  }

  lemma {:induction false} OneIncludes(o: nat -> Outcome, n: nat, i: nat, rule: string, id: nat)
    requires forall m: nat :: m < n && m != i ==> IncCount(Unknown(o(m)), rule, id) == 0
    ensures IncCount(InconclusivesOf(o, n), rule, id) == if i < n then IncCount(Unknown(o(i)), rule, id) else 0
  {
    if n > 0 {
      OneIncludes(o, n - 1, i, rule, id);
      IncConcat(InconclusivesOf(o, n - 1), Unknown(o(n - 1)), rule, id);
    }
  }

  /** The rule's insights and inconclusives about one resource after a run are those of its own
      evaluation. */
  lemma RunIsPerResource(t: Table, rule: string, source: string, input: Input, i: nat, o: nat -> Outcome)
    requires OwnVerdicts(rule, input) && DistinctIds(input.resources) && i < |input.resources|
    requires o == OutcomesOf(rule, source, input)
    ensures var v, id := Step(t, RunOp(rule, source, input)), input.resources[i].id;
      && RowsAbout(v.insights, rule, id) == About(Found(o(i)), rule, id)
      && IncCount(v.inconclusives, rule, id) == IncCount(Unknown(o(i)), rule, id)
      && forall inc :: inc in Unknown(o(i)) ==> inc in v.inconclusives
  {
    var n, id := |input.resources|, input.resources[i].id;
    forall m: nat | m < n && m != i
      ensures About(Found(o(m)), rule, id) == [] && IncCount(Unknown(o(m)), rule, id) == 0
    {
      OthersSpeakOfOthers(rule, source, input, m, i);
    }
    OneSpeaks(o, n, i, rule, id);
    OneIncludes(o, n, i, rule, id);
    RowsAboutAreFresh(t, rule, FindingsOf(o, n), InconclusivesOf(o, n), id);
    WithoutInconclusiveHasNone(t.inconclusives, rule, id);
    IncConcat(WithoutInconclusive(t.inconclusives, rule), InconclusivesOf(o, n), rule, id);
    forall inc | inc in Unknown(o(i)) ensures inc in InconclusivesOf(o, n) { EmittedIsThere(o, n, i, inc); }
  }

  // ---------------------------------------------------------------- what the run decides

  lemma OneOf(inc: Inconclusive, rule: string, id: nat)
    ensures IncCount([inc], rule, id) == if inc.rule == rule && inc.resource == id then 1 else 0
  {
    assert [inc][..0] == [];
  }

  /** A proven resource with facts whose rule answers: the rule's insights about it are exactly
      the answer's findings, and there is one inconclusive, with the answer's reasons, exactly
      when it gives any. */
  lemma AnsweredResource(t: Table, rule: string, source: string, input: Input, i: nat)
    requires OwnVerdicts(rule, input) && DistinctIds(input.resources) && i < |input.resources|
    requires ScanProof.SuccessesAreFinished(input.runs) && Fresh(input, source, i)
    requires input.hasFacts(input.resources[i].id) && input.verdict(input.resources[i].id).Evaluated?
    ensures var v, id := Step(t, RunOp(rule, source, input)), input.resources[i].id;
      var reasons := input.verdict(id).reasons;
      && RowsAbout(v.insights, rule, id) == input.verdict(id).findings
      && IncCount(v.inconclusives, rule, id) == (if reasons == [] then 0 else 1)
      && (reasons != [] ==> Inconclusive(rule, id, reasons) in v.inconclusives)
  {
    var o, id := OutcomesOf(rule, source, input), input.resources[i].id;
    FreshOutcome(rule, source, input, i);
    RunIsPerResource(t, rule, source, input, i, o);
    AboutAll(Found(o(i)), rule, id);
    OneOf(Inconclusive(rule, id, input.verdict(id).reasons), rule, id);
  }

  /** A proven resource without facts has no insight and one inconclusive that says so. */
  lemma FactlessResource(t: Table, rule: string, source: string, input: Input, i: nat)
    requires OwnVerdicts(rule, input) && DistinctIds(input.resources) && i < |input.resources|
    requires ScanProof.SuccessesAreFinished(input.runs) && Fresh(input, source, i)
    requires !input.hasFacts(input.resources[i].id)
    ensures var v, id := Step(t, RunOp(rule, source, input)), input.resources[i].id;
      && RowsAbout(v.insights, rule, id) == []
      && IncCount(v.inconclusives, rule, id) == 1 && Inconclusive(rule, id, ["<no facts>"]) in v.inconclusives
  {
    var o, id := OutcomesOf(rule, source, input), input.resources[i].id;
    FreshOutcome(rule, source, input, i);
    RunIsPerResource(t, rule, source, input, i, o);
    OneOf(Inconclusive(rule, id, ["<no facts>"]), rule, id);
  }

  /** A proven resource whose rule raises has neither. */
  lemma RaisingResource(t: Table, rule: string, source: string, input: Input, i: nat)
    requires OwnVerdicts(rule, input) && DistinctIds(input.resources) && i < |input.resources|
    requires ScanProof.SuccessesAreFinished(input.runs) && Fresh(input, source, i)
    requires input.hasFacts(input.resources[i].id) && input.verdict(input.resources[i].id).Raises?
    ensures var v, id := Step(t, RunOp(rule, source, input)), input.resources[i].id;
      RowsAbout(v.insights, rule, id) == [] && IncCount(v.inconclusives, rule, id) == 0
  {
    FreshOutcome(rule, source, input, i);
    RunIsPerResource(t, rule, source, input, i, OutcomesOf(rule, source, input));
  }

  /** Seven rules are known; the three about engine ends of life rest on the RDS scan, the four
      about volumes, snapshots and instances on the EC2 scan. */
  lemma RulesRestOnScans(rule: string)
    ensures SourceOf(rule) == Some("aws_rds") <==> rule == "rds_eol" || rule == "mysql_eol" || rule == "aurora_eol"
    ensures SourceOf(rule) == Some("aws_ec2") <==>
      rule == "ebs_gp2_to_gp3" || rule == "ebs_unattached" || rule == "snapshot_orphan" || rule == "ec2_stopped_with_storage"
    ensures SourceOf(rule).Some? ==> SourceOf(rule).value in ["aws_rds", "aws_ec2"]
  {
  }

  /** Row `i` is one of the rule's without an ack whose gap had one. */
  predicate GetsItsAck(rows: seq<Row>, rule: string, snapshot: map<Gap, Ack>, i: nat)
    requires i < |rows|
  {
    rows[i].finding.rule == rule && rows[i].ack == None && StableIdOf(rows[i].finding) in snapshot
  }

  ghost function AckedBelow(rows: seq<Row>, rule: string, snapshot: map<Gap, Ack>, n: nat): set<nat>
    requires n <= |rows|
  {
    set i: nat | i < n && GetsItsAck(rows, rule, snapshot, i)
  }

  lemma OneMoreAcked(rows: seq<Row>, rule: string, snapshot: map<Gap, Ack>, n: nat)
    requires n < |rows|
    ensures AckedBelow(rows, rule, snapshot, n + 1)
      == AckedBelow(rows, rule, snapshot, n) + if GetsItsAck(rows, rule, snapshot, n) then {n} else {}
  {
  }

  /** The number of acks carried over is the number of those rows. */
  lemma {:induction false} CarriedCountIsExact(rows: seq<Row>, rule: string, snapshot: map<Gap, Ack>, n: nat)
    requires n <= |rows|
    ensures CarriedCount(rows[..n], rule, snapshot) == |AckedBelow(rows, rule, snapshot, n)|
  {
    if n == 0 {
      assert AckedBelow(rows, rule, snapshot, 0) == {};
    } else {
      CarriedCountIsExact(rows, rule, snapshot, n - 1);
      OneMoreAcked(rows, rule, snapshot, n - 1);
      assert rows[..n][..n - 1] == rows[..n - 1];
    }
  }

  /** Resource `i` is proven, has facts, and its rule raises. */
  ghost predicate RaisesAt(source: string, input: Input, i: nat) {
    && i < |input.resources| && Fresh(input, source, i)
    && input.hasFacts(input.resources[i].id) && input.verdict(input.resources[i].id).Raises?
  }

  lemma FailsExactlyWhenItRaises(rule: string, source: string, input: Input, i: nat)
    requires i < |input.resources| && ScanProof.SuccessesAreFinished(input.runs)
    ensures Failure(OutcomesOf(rule, source, input)(i)) == if RaisesAt(source, input, i) then 1 else 0
  {
    if Fresh(input, source, i) { FreshOutcome(rule, source, input, i); } else { UnprovenIsInconclusive(rule, source, input, i); }
  }

  ghost function RaisesBelow(source: string, input: Input, n: nat): set<nat> { set i: nat | i < n && RaisesAt(source, input, i) }

  lemma OneMoreRaise(source: string, input: Input, n: nat)
    ensures RaisesBelow(source, input, n + 1) == RaisesBelow(source, input, n) + if RaisesAt(source, input, n) then {n} else {}
  {
  }

  /** The errors counted are exactly the resources on which the rule raises. */
  lemma {:induction false} ErrorsAreRaises(rule: string, source: string, input: Input, n: nat)
    requires n <= |input.resources| && ScanProof.SuccessesAreFinished(input.runs)
    ensures ErrorsOf(OutcomesOf(rule, source, input), n) == |RaisesBelow(source, input, n)|
  {
    if n == 0 {
      assert RaisesBelow(source, input, 0) == {};
    } else {
      ErrorsAreRaises(rule, source, input, n - 1);
      FailsExactlyWhenItRaises(rule, source, input, n - 1);
      OneMoreRaise(source, input, n - 1);
    }
  }
}

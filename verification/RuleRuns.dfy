/** Delete-and-replace rule runs over the insights table, the append-only event log and the
    operator's acknowledgments. Sources:
    apps/api/src/constat_api/repositories/insights.py, insight_events.py and
    insights/runner.py (`run_resource_rule`). */
module RuleRuns {
  import opened Wrappers

  datatype Ack = Ack(status: string, at: real, ackedBy: Option<string>)

  const ACK_STATUSES: set<string> := {"acknowledged", "in_progress", "resolved", "dismissed"}

  /** The payload fields the repositories read: the chargeback identity and the monthly amount. */
  datatype Payload = Payload(
    service: string, periodLabel: string, tagKey: Option<string>, tagValue: Option<string>, monthly: Option<real>)

  datatype Finding = Finding(
    rule: string, resource: Option<nat>, account: Option<string>, severity: string, title: string, payload: Payload)

  /** A row of the insights table; ids stand for random uuids. */
  datatype Row = Row(id: nat, finding: Finding, ack: Option<Ack>)

  datatype Inconclusive = Inconclusive(rule: string, resource: nat, missingFacts: seq<string>)

  /** The identity of an insight in the event log; it contains the title. */
  datatype Fingerprint = Fingerprint(rule: string, resource: Option<nat>, title: string)

  datatype Event = Event(fp: Fingerprint, appeared: bool, monthly: Option<real>, run: nat)

  /** The identity of the gap behind an insight; it does not contain the title. */
  datatype Gap =
    | ResourceGap(rule: string, resource: nat)
    | AccountGap(account: Option<string>, service: string, periodLabel: string, tagKey: string, tagValue: string)

  function FingerprintOf(f: Finding): Fingerprint { Fingerprint(f.rule, f.resource, f.title) }

  function StableIdOf(f: Finding): Gap {
    if f.resource.Some? then ResourceGap(f.rule, f.resource.value)
    else
      AccountGap(f.account, f.payload.service, f.payload.periodLabel,
                 if f.payload.tagKey.Some? then f.payload.tagKey.value else "",
                 if f.payload.tagValue.Some? && f.payload.tagValue.value != "" then f.payload.tagValue.value else "UNTAGGED")
  }

  // ---------------------------------------------------------------- snapshots

  /** Acked rows of the rule by gap; a later row of the same gap replaces an earlier one. */
  function AckSnapshot(rows: seq<Row>, rule: string): map<Gap, Ack> {
    if rows == [] then map[]
    else
      var front, r := AckSnapshot(rows[..|rows| - 1], rule), rows[|rows| - 1];
      if r.finding.rule == rule && r.ack.Some? then front[StableIdOf(r.finding) := r.ack.value] else front
  }

  /** Fingerprints of the rule's rows, in the order a dict comprehension keeps them. */
  function SnapshotKeys(rows: seq<Row>, rule: string): seq<Fingerprint> {
    if rows == [] then []
    else
      var front, r := SnapshotKeys(rows[..|rows| - 1], rule), rows[|rows| - 1];
      if r.finding.rule == rule && FingerprintOf(r.finding) !in front then front + [FingerprintOf(r.finding)] else front
  }

  /** The amount of the last row with that fingerprint: the one the dict keeps. */
  function MonthlyOf(rows: seq<Row>, fp: Fingerprint): Option<real> {
    if rows == [] then None
    else if FingerprintOf(rows[|rows| - 1].finding) == fp then rows[|rows| - 1].finding.payload.monthly
    else MonthlyOf(rows[..|rows| - 1], fp)
  }

  // ---------------------------------------------------------------- one run

  function WithoutRule(rows: seq<Row>, rule: string): seq<Row> {
    if rows == [] then []
    else WithoutRule(rows[..|rows| - 1], rule) + (if rows[|rows| - 1].finding.rule == rule then [] else [rows[|rows| - 1]])
  }

  function WithoutInconclusive(rows: seq<Inconclusive>, rule: string): seq<Inconclusive> {
    if rows == [] then []
    else
      WithoutInconclusive(rows[..|rows| - 1], rule)
      + (if rows[|rows| - 1].rule == rule then [] else [rows[|rows| - 1]])
  }

  function FreshRows(findings: seq<Finding>, next: nat): (r: seq<Row>)
    ensures |r| == |findings|
  {
    seq(|findings|, i requires 0 <= i < |findings| => Row(next + i, findings[i], None))
  }

  function Carried(r: Row, rule: string, snapshot: map<Gap, Ack>): Row {
    if r.finding.rule == rule && r.ack.None? && StableIdOf(r.finding) in snapshot
    then r.(ack := Some(snapshot[StableIdOf(r.finding)])) else r
  }

  function WithAcks(rows: seq<Row>, rule: string, snapshot: map<Gap, Ack>): (r: seq<Row>)
    ensures |r| == |rows|
  {
    seq(|rows|, i requires 0 <= i < |rows| => Carried(rows[i], rule, snapshot))
  }

  /** One event for each key of one side that the other side lacks. */
  function EventsFor(keys: seq<Fingerprint>, other: seq<Fingerprint>, rows: seq<Row>, appeared: bool, run: nat): seq<Event> {
    if keys == [] then []
    else
      var fp := keys[|keys| - 1];
      EventsFor(keys[..|keys| - 1], other, rows, appeared, run)
      + (if fp in other then [] else [Event(fp, appeared, MonthlyOf(rows, fp), run)])
  }

  function Diff(before: seq<Row>, after: seq<Row>, rule: string, run: nat): seq<Event> {
    var was, now := SnapshotKeys(before, rule), SnapshotKeys(after, rule);
    EventsFor(now, was, after, true, run) + EventsFor(was, now, before, false, run)
  }

  datatype Table = Table(
    insights: seq<Row>, inconclusives: seq<Inconclusive>, events: seq<Event>, nextId: nat, nextRun: nat)

  const EMPTY := Table([], [], [], 0, 0)

  datatype Op =
    | RunRule(rule: string, findings: seq<Finding>, inconclusives: seq<Inconclusive>)
    | Patch(id: nat, ack: Ack)

  function Replaced(rows: seq<Row>, rule: string, findings: seq<Finding>, next: nat): seq<Row> {
    WithAcks(WithoutRule(rows, rule) + FreshRows(findings, next), rule, AckSnapshot(rows, rule))
  }

  function Patched(rows: seq<Row>, id: nat, ack: Ack): (r: seq<Row>)
    ensures |r| == |rows|
  {
    seq(|rows|, i requires 0 <= i < |rows| => if rows[i].id == id then rows[i].(ack := Some(ack)) else rows[i])
  }

  function Step(t: Table, op: Op): Table {
    match op
    case RunRule(rule, findings, inconclusives) =>
      var rows := Replaced(t.insights, rule, findings, t.nextId);
      Table(rows, WithoutInconclusive(t.inconclusives, rule) + inconclusives,
            t.events + Diff(t.insights, rows, rule, t.nextRun), t.nextId + |findings|, t.nextRun + 1)
    case Patch(id, ack) => if ack.status in ACK_STATUSES then t.(insights := Patched(t.insights, id, ack)) else t
  }

  function RunAll(t: Table, ops: seq<Op>): Table
    decreases ops
  {
    if ops == [] then t else RunAll(Step(t, ops[0]), ops[1..])
  }

  // ---------------------------------------------------------------- snapshots say who is there

  ghost predicate Present(rows: seq<Row>, fp: Fingerprint) {
    exists i :: 0 <= i < |rows| && FingerprintOf(rows[i].finding) == fp
  }

  lemma PresentSplit(rows: seq<Row>, fp: Fingerprint)
    requires rows != []
    ensures Present(rows, fp) <==> Present(rows[..|rows| - 1], fp) || FingerprintOf(rows[|rows| - 1].finding) == fp
  {
    var front := rows[..|rows| - 1];
    if Present(front, fp) {
      var i :| 0 <= i < |front| && FingerprintOf(front[i].finding) == fp;
      assert rows[i] == front[i];
    }
    if Present(rows, fp) {
      var i :| 0 <= i < |rows| && FingerprintOf(rows[i].finding) == fp;
      if i < |front| { assert front[i] == rows[i]; }
    }
  }

  lemma {:induction false} KeysArePresence(rows: seq<Row>, rule: string, fp: Fingerprint)
    ensures fp in SnapshotKeys(rows, rule) <==> fp.rule == rule && Present(rows, fp)
  {
    if rows != [] {
      KeysArePresence(rows[..|rows| - 1], rule, fp);
      PresentSplit(rows, fp);
    }
  }

  lemma {:induction false} KeysAreDistinct(rows: seq<Row>, rule: string)
    ensures forall i, j :: 0 <= i < j < |SnapshotKeys(rows, rule)| ==> SnapshotKeys(rows, rule)[i] != SnapshotKeys(rows, rule)[j]
  {
    if rows != [] {
      KeysAreDistinct(rows[..|rows| - 1], rule);
    }
  }

  lemma {:induction false} WithoutRulePresence(rows: seq<Row>, rule: string, fp: Fingerprint)
    ensures Present(WithoutRule(rows, rule), fp) <==> fp.rule != rule && Present(rows, fp)
  {
    if rows != [] {
      WithoutRulePresence(rows[..|rows| - 1], rule, fp);
      PresentSplit(rows, fp);
      var kept := WithoutRule(rows[..|rows| - 1], rule);
      if rows[|rows| - 1].finding.rule != rule {
        PresentSplit(kept + [rows[|rows| - 1]], fp);
        assert (kept + [rows[|rows| - 1]])[..|kept|] == kept;
      } else {
        assert WithoutRule(rows, rule) == kept;
      }
    }
  }

  /** A run leaves the other rules' rows where they were. */
  lemma OtherRulesStay(rows: seq<Row>, rule: string, findings: seq<Finding>, next: nat, fp: Fingerprint)
    requires forall i :: 0 <= i < |findings| ==> findings[i].rule == rule
    ensures fp.rule != rule ==> (Present(Replaced(rows, rule, findings, next), fp) <==> Present(rows, fp))
  {
    var kept := WithoutRule(rows, rule);
    var v := Replaced(rows, rule, findings, next);
    WithoutRulePresence(rows, rule, fp);
    if fp.rule != rule && Present(v, fp) {
      var i :| 0 <= i < |v| && FingerprintOf(v[i].finding) == fp;
      assert i < |kept| && FingerprintOf(kept[i].finding) == fp;
    }
    if fp.rule != rule && Present(rows, fp) {
      var i :| 0 <= i < |kept| && FingerprintOf(kept[i].finding) == fp;
      assert FingerprintOf(v[i].finding) == fp;
    }
  }

  // ---------------------------------------------------------------- the event log

  /** Whether the last event of `fp` is an appearance. */
  function Open(log: seq<Event>, fp: Fingerprint): bool {
    if log == [] then false
    else if log[|log| - 1].fp == fp then log[|log| - 1].appeared
    else Open(log[..|log| - 1], fp)
  }

  /** Each event of `fp` flips its state, starting from absent: appeared, resolved, appeared, ... */
  ghost predicate Alternates(log: seq<Event>, fp: Fingerprint) {
    forall k :: 0 <= k < |log| && log[k].fp == fp ==> log[k].appeared != Open(log[..k], fp)
  }

  ghost predicate Mentions(events: seq<Event>, fp: Fingerprint) {
    exists k :: 0 <= k < |events| && events[k].fp == fp
  }

  /** Events that mention each fingerprint at most once, each time flipping it to `to(fp)`. */
  ghost predicate Flips(log: seq<Event>, events: seq<Event>, rows: seq<Row>) {
    && (forall i, j :: 0 <= i < j < |events| ==> events[i].fp != events[j].fp)
    && (forall i :: 0 <= i < |events| ==>
          events[i].appeared == Present(rows, events[i].fp) && events[i].appeared != Open(log, events[i].fp))
  }

  lemma {:induction false} AppendEvents(log: seq<Event>, events: seq<Event>, rows: seq<Row>, fp: Fingerprint)
    requires Flips(log, events, rows) && Alternates(log, fp)
    ensures Alternates(log + events, fp)
    ensures Open(log + events, fp) == if Mentions(events, fp) then Present(rows, fp) else Open(log, fp)
  {
    if events == [] {
      assert log + events == log;
    } else {
      var front, e := events[..|events| - 1], events[|events| - 1];
      AppendEvents(log, front, rows, fp);
      assert log + events == (log + front) + [e];
      assert (log + events)[..|log + front|] == log + front;
      if Mentions(front, fp) {
        var k :| 0 <= k < |front| && front[k].fp == fp;
        assert events[k].fp == fp;
      }
      forall k | 0 <= k < |log + events| && (log + events)[k].fp == fp
        ensures (log + events)[k].appeared != Open((log + events)[..k], fp)
      {
        if k < |log + front| {
          assert (log + front)[k] == (log + events)[k];
          assert (log + events)[..k] == (log + front)[..k];
        }
      }
      if Mentions(events, fp) && e.fp != fp {
        var k :| 0 <= k < |events| && events[k].fp == fp;
        assert front[k].fp == fp;
      }
    }
  }

  ghost predicate EventOk(e: Event, keys: seq<Fingerprint>, other: seq<Fingerprint>, rows: seq<Row>, appeared: bool) {
    e.appeared == appeared && e.fp in keys && e.fp !in other && e.monthly == MonthlyOf(rows, e.fp)
  }

  lemma {:induction false} EventsForAre(keys: seq<Fingerprint>, other: seq<Fingerprint>, rows: seq<Row>, appeared: bool,
                                        run: nat, k: nat)
    requires k < |EventsFor(keys, other, rows, appeared, run)|
    ensures EventOk(EventsFor(keys, other, rows, appeared, run)[k], keys, other, rows, appeared)
  {
    var front, fp := keys[..|keys| - 1], keys[|keys| - 1];
    var rest := EventsFor(front, other, rows, appeared, run);
    var e := EventsFor(keys, other, rows, appeared, run)[k];
    if k < |rest| {
      EventsForAre(front, other, rows, appeared, run, k);
      assert e == rest[k];
      assert e.fp in front;
      assert e.fp in keys by { assert keys == front + [fp]; }
    } else {
      assert fp !in other && e == Event(fp, appeared, MonthlyOf(rows, fp), run);
    }
  }

  lemma {:induction false} EventsForAreDistinct(keys: seq<Fingerprint>, other: seq<Fingerprint>, rows: seq<Row>,
                                                appeared: bool, run: nat, i: nat, j: nat)
    requires forall m, n :: 0 <= m < n < |keys| ==> keys[m] != keys[n]
    requires i < j < |EventsFor(keys, other, rows, appeared, run)|
    ensures EventsFor(keys, other, rows, appeared, run)[i].fp != EventsFor(keys, other, rows, appeared, run)[j].fp
  {
    var front := keys[..|keys| - 1];
    var rest := EventsFor(front, other, rows, appeared, run);
    var es := EventsFor(keys, other, rows, appeared, run);
    assert es[i] == rest[i];
    if j < |rest| {
      EventsForAreDistinct(front, other, rows, appeared, run, i, j);
      assert es[j] == rest[j];
    } else {
      EventsForAre(front, other, rows, appeared, run, i);
      assert rest[i].fp in front && keys[|keys| - 1] !in front;
    }
  }

  lemma {:induction false} EventsForMention(keys: seq<Fingerprint>, other: seq<Fingerprint>, rows: seq<Row>, appeared: bool,
                                            run: nat, fp: Fingerprint)
    requires fp in keys && fp !in other
    ensures Mentions(EventsFor(keys, other, rows, appeared, run), fp)
  {
    var front := keys[..|keys| - 1];
    var es := EventsFor(front, other, rows, appeared, run);
    if keys[|keys| - 1] == fp {
      assert EventsFor(keys, other, rows, appeared, run)[|es|].fp == fp;
    } else {
      EventsForMention(front, other, rows, appeared, run, fp);
      var k :| 0 <= k < |es| && es[k].fp == fp;
      assert EventsFor(keys, other, rows, appeared, run)[k].fp == fp;
    }
  }

  /** Every event of a run belongs to a fingerprint of the rule whose presence changed, and
      carries the amount of its own side: the fresh one when the gap appeared, the old one when
      it was resolved. */
  lemma DiffAmounts(before: seq<Row>, after: seq<Row>, rule: string, run: nat, k: nat)
    requires k < |Diff(before, after, rule, run)|
    ensures var e := Diff(before, after, rule, run)[k];
      && e.monthly == MonthlyOf(if e.appeared then after else before, e.fp)
      && e.fp.rule == rule && Present(after, e.fp) == e.appeared && Present(before, e.fp) == !e.appeared
  {
    var was, now := SnapshotKeys(before, rule), SnapshotKeys(after, rule);
    var a, b := EventsFor(now, was, after, true, run), EventsFor(was, now, before, false, run);
    var e := Diff(before, after, rule, run)[k];
    if k < |a| {
      EventsForAre(now, was, after, true, run, k);
      assert e == a[k];
    } else {
      EventsForAre(was, now, before, false, run, k - |a|);
      assert e == b[k - |a|];
    }
    KeysArePresence(before, rule, e.fp);
    KeysArePresence(after, rule, e.fp);
  }

  lemma DiffDistinct(before: seq<Row>, after: seq<Row>, rule: string, run: nat, i: nat, j: nat)
    requires i < j < |Diff(before, after, rule, run)|
    ensures Diff(before, after, rule, run)[i].fp != Diff(before, after, rule, run)[j].fp
  {
    var was, now := SnapshotKeys(before, rule), SnapshotKeys(after, rule);
    var a, b := EventsFor(now, was, after, true, run), EventsFor(was, now, before, false, run);
    KeysAreDistinct(before, rule);
    KeysAreDistinct(after, rule);
    if j < |a| {
      EventsForAreDistinct(now, was, after, true, run, i, j);
    } else if i >= |a| {
      EventsForAreDistinct(was, now, before, false, run, i - |a|, j - |a|);
    } else {
      EventsForAre(now, was, after, true, run, i);
      EventsForAre(was, now, before, false, run, j - |a|);
    }
  }

  /** The diff of a run flips each fingerprint it mentions, once. */
  lemma DiffFlips(log: seq<Event>, before: seq<Row>, after: seq<Row>, rule: string, run: nat)
    requires forall fp :: Open(log, fp) == Present(before, fp)
    ensures Flips(log, Diff(before, after, rule, run), after)
    ensures forall fp :: Mentions(Diff(before, after, rule, run), fp) ==> fp.rule == rule
  {
    var es := Diff(before, after, rule, run);
    forall k | 0 <= k < |es|
      ensures es[k].fp.rule == rule && es[k].appeared == Present(after, es[k].fp) && es[k].appeared != Open(log, es[k].fp)
    {
      DiffAmounts(before, after, rule, run, k);
    }
    forall i, j | 0 <= i < j < |es| ensures es[i].fp != es[j].fp {
      DiffDistinct(before, after, rule, run, i, j);
    }
  }

  lemma DiffMentions(before: seq<Row>, after: seq<Row>, rule: string, run: nat, fp: Fingerprint)
    requires fp.rule == rule && Present(before, fp) != Present(after, fp)
    ensures Mentions(Diff(before, after, rule, run), fp)
  {
    var was, now := SnapshotKeys(before, rule), SnapshotKeys(after, rule);
    KeysArePresence(before, rule, fp);
    KeysArePresence(after, rule, fp);
    var a, b := EventsFor(now, was, after, true, run), EventsFor(was, now, before, false, run);
    if fp in now {
      EventsForMention(now, was, after, true, run, fp);
      var k :| 0 <= k < |a| && a[k].fp == fp;
      assert (a + b)[k].fp == fp;
    } else {
      EventsForMention(was, now, before, false, run, fp);
      var k :| 0 <= k < |b| && b[k].fp == fp;
      assert (a + b)[|a| + k].fp == fp;
    }
  }

  /** A run only emits findings of its own rule. */
  ghost predicate OwnFindings(op: Op) {
    op.RunRule? ==> forall i :: 0 <= i < |op.findings| ==> op.findings[i].rule == op.rule
  }

  ghost predicate AllOwn(ops: seq<Op>) { forall k :: 0 <= k < |ops| ==> OwnFindings(ops[k]) }

  ghost predicate LogInv(t: Table) {
    && (forall fp :: Open(t.events, fp) == Present(t.insights, fp))
    && (forall fp :: Alternates(t.events, fp))
  }

  lemma PatchKeepsPresence(rows: seq<Row>, id: nat, ack: Ack, fp: Fingerprint)
    ensures Present(Patched(rows, id, ack), fp) <==> Present(rows, fp)
  {
    var v := Patched(rows, id, ack);
    if Present(rows, fp) {
      var i :| 0 <= i < |rows| && FingerprintOf(rows[i].finding) == fp;
      assert FingerprintOf(v[i].finding) == fp;
    }
  }

  lemma LogStep(t: Table, op: Op)
    requires LogInv(t) && OwnFindings(op)
    ensures LogInv(Step(t, op))
  {
    var v := Step(t, op);
    match op {
      case RunRule(rule, findings, _) =>
        DiffFlips(t.events, t.insights, v.insights, rule, t.nextRun);
        forall fp ensures Open(v.events, fp) == Present(v.insights, fp) && Alternates(v.events, fp) {
          AppendEvents(t.events, Diff(t.insights, v.insights, rule, t.nextRun), v.insights, fp);
          OtherRulesStay(t.insights, rule, findings, t.nextId, fp);
          if fp.rule == rule && Present(t.insights, fp) != Present(v.insights, fp) {
            DiffMentions(t.insights, v.insights, rule, t.nextRun, fp);
          }
        }
      case Patch(id, ack) =>
        forall fp ensures Open(v.events, fp) == Present(v.insights, fp) && Alternates(v.events, fp) {
          PatchKeepsPresence(t.insights, id, ack, fp);
        }
    }
  }

  lemma {:induction false} LogRun(t: Table, ops: seq<Op>)
    requires LogInv(t) && AllOwn(ops)
    ensures LogInv(RunAll(t, ops))
    decreases ops
  {
    if ops != [] {
      LogStep(t, ops[0]);
      LogRun(Step(t, ops[0]), ops[1..]);
    }
  }

  /** The log replays to the present: after any runs of any rules and any patches from an empty
      table, each fingerprint's events alternate starting with an appearance, and those whose
      last event is an appearance are exactly the fingerprints of the current insights. */
  lemma LogReplaysToThePresent(ops: seq<Op>, fp: Fingerprint)
    requires AllOwn(ops)
    ensures var t := RunAll(EMPTY, ops);
      Alternates(t.events, fp) && (Open(t.events, fp) <==> Present(t.insights, fp))
  {
    LogRun(EMPTY, ops);
  }
}

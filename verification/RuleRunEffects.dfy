/** What a rule run and a patch leave in the tables, said without the functions that compute it
    (apps/api/src/constat_api/repositories/insights.py and insight_events.py). */
module RuleRunEffects {
  import opened Wrappers
  import opened RuleRuns

  // ---------------------------------------------------------------- identities

  /** Two insights are one gap exactly when they are about the same resource under the same rule,
      or about no resource and agree in account, service, period label and tag; a missing key
      counts as empty, a missing or empty value as untagged. */
  lemma SameGapExactlyWhen(f: Finding, g: Finding)
    ensures StableIdOf(f) == StableIdOf(g) <==>
      if f.resource.Some? then g.resource == f.resource && g.rule == f.rule
      else
        && g.resource.None? && f.account == g.account
        && f.payload.service == g.payload.service && f.payload.periodLabel == g.payload.periodLabel
        && Given(f.payload.tagKey, "") == Given(g.payload.tagKey, "")
        && NonEmpty(f.payload.tagValue, "UNTAGGED") == NonEmpty(g.payload.tagValue, "UNTAGGED")
  {
  }

  function Given(o: Option<string>, otherwise: string): string { if o.Some? then o.value else otherwise }

  function NonEmpty(o: Option<string>, otherwise: string): string {
    if o == None || o == Some("") then otherwise else o.value
  }

  /** Two insights are one line of the log exactly when rule, resource and title agree. */
  lemma SameFingerprintExactlyWhen(f: Finding, g: Finding)
    ensures FingerprintOf(f) == FingerprintOf(g) <==> f.rule == g.rule && f.resource == g.resource && f.title == g.title
  {
  }

  // ---------------------------------------------------------------- snapshots

  /** The amount in an event is that of the last row with the fingerprint. */
  lemma {:induction false} LastRowDecides(rows: seq<Row>, fp: Fingerprint) returns (k: nat)
    requires Present(rows, fp)
    ensures k < |rows| && FingerprintOf(rows[k].finding) == fp && MonthlyOf(rows, fp) == rows[k].finding.payload.monthly
    ensures forall m :: k < m < |rows| ==> FingerprintOf(rows[m].finding) != fp
  {
    var n := |rows| - 1;
    if FingerprintOf(rows[n].finding) == fp {
      k := n;
    } else {
      PresentSplit(rows, fp);
      k := LastRowDecides(rows[..n], fp);
    }
  }

  /** The ack carried for a gap is that of the rule's last acked row about it. */
  lemma {:induction false} LastAckIsCarried(rows: seq<Row>, rule: string, g: Gap) returns (k: nat)
    requires g in AckSnapshot(rows, rule)
    ensures k < |rows| && rows[k].finding.rule == rule && StableIdOf(rows[k].finding) == g
    ensures rows[k].ack == Some(AckSnapshot(rows, rule)[g])
    ensures forall m :: k < m < |rows| && rows[m].finding.rule == rule && StableIdOf(rows[m].finding) == g ==> rows[m].ack == None
  {
    var n := |rows| - 1;
    if rows[n].finding.rule == rule && rows[n].ack.Some? && StableIdOf(rows[n].finding) == g {
      k := n;
    } else {
      k := LastAckIsCarried(rows[..n], rule, g);
    }
  }

  // ---------------------------------------------------------------- what a run leaves

  /** The rows of all the other rules, in order, acks and ids included. */
  function OfOthers(rows: seq<Row>, rule: string): seq<Row> {
    if rows == [] then []
    else OfOthers(rows[..|rows| - 1], rule) + if rows[|rows| - 1].finding.rule != rule then [rows[|rows| - 1]] else []
  }

  /** The rows of the rule, in order. */
  function OfRule(rows: seq<Row>, rule: string): seq<Row> {
    if rows == [] then []
    else OfRule(rows[..|rows| - 1], rule) + if rows[|rows| - 1].finding.rule == rule then [rows[|rows| - 1]] else []
  }

  function UnknownsOfOthers(incs: seq<Inconclusive>, rule: string): seq<Inconclusive> {
    if incs == [] then []
    else UnknownsOfOthers(incs[..|incs| - 1], rule) + if incs[|incs| - 1].rule != rule then [incs[|incs| - 1]] else []
  }

  function UnknownsOfRule(incs: seq<Inconclusive>, rule: string): seq<Inconclusive> {
    if incs == [] then []
    else UnknownsOfRule(incs[..|incs| - 1], rule) + if incs[|incs| - 1].rule == rule then [incs[|incs| - 1]] else []
  }

  lemma {:induction false} SplitConcat(a: seq<Row>, b: seq<Row>, rule: string)
    ensures OfOthers(a + b, rule) == OfOthers(a, rule) + OfOthers(b, rule)
    ensures OfRule(a + b, rule) == OfRule(a, rule) + OfRule(b, rule)
  {
    if b == [] {
      assert a + b == a;
    } else {
      assert (a + b)[..|a + b| - 1] == a + b[..|b| - 1];
      SplitConcat(a, b[..|b| - 1], rule);
    }
  }

  lemma {:induction false} WithoutRuleIsOthers(rows: seq<Row>, rule: string)
    ensures WithoutRule(rows, rule) == OfOthers(rows, rule)
    ensures OfOthers(WithoutRule(rows, rule), rule) == WithoutRule(rows, rule) && OfRule(WithoutRule(rows, rule), rule) == []
  {
    if rows != [] {
      var front, last := WithoutRule(rows[..|rows| - 1], rule), rows[|rows| - 1];
      WithoutRuleIsOthers(rows[..|rows| - 1], rule);
      SplitConcat(front, if last.finding.rule == rule then [] else [last], rule);
    }
  }

  lemma {:induction false} AllOfOneRule(rows: seq<Row>, rule: string)
    requires forall k :: 0 <= k < |rows| ==> rows[k].finding.rule == rule
    ensures OfOthers(rows, rule) == [] && OfRule(rows, rule) == rows
  {
    if rows != [] {
      AllOfOneRule(rows[..|rows| - 1], rule);
    }
  }

  /** The rebuilt rows: the others as they were, then the fresh ones. */
  lemma RebuiltInTwoParts(rows: seq<Row>, rule: string, findings: seq<Finding>, next: nat) returns (added: seq<Row>)
    ensures Replaced(rows, rule, findings, next) == WithoutRule(rows, rule) + added
    ensures |added| == |findings| && forall k :: 0 <= k < |findings| ==> added[k].finding == findings[k] && added[k].id == next + k
  {
    var kept := WithoutRule(rows, rule);
    var all := Replaced(rows, rule, findings, next);
    added := all[|kept|..];
    KeptHaveOtherRules(rows, rule);
    forall k | 0 <= k < |kept| ensures all[k] == kept[k] {}
    forall k | 0 <= k < |findings| ensures added[k] == all[|kept| + k] {}
  }

  /** The rows of the other rules stay, row for row; the rows of the rule are its findings, in
      order, with fresh ids. */
  lemma RunReplacesItsOwnRows(t: Table, rule: string, findings: seq<Finding>, incs: seq<Inconclusive>)
    requires forall k :: 0 <= k < |findings| ==> findings[k].rule == rule
    ensures var v := Step(t, RunRule(rule, findings, incs));
      && OfOthers(v.insights, rule) == OfOthers(t.insights, rule)
      && |OfRule(v.insights, rule)| == |findings|
      && forall k :: 0 <= k < |findings| ==>
           OfRule(v.insights, rule)[k].finding == findings[k] && OfRule(v.insights, rule)[k].id == t.nextId + k
  {
    var kept := WithoutRule(t.insights, rule);
    var added := RebuiltInTwoParts(t.insights, rule, findings, t.nextId);
    WithoutRuleIsOthers(t.insights, rule);
    AllOfOneRule(added, rule);
    SplitConcat(kept, added, rule);
    assert OfOthers(kept, rule) + [] == kept && [] + added == added;
  }

  lemma {:induction false} KeptHaveOtherRules(rows: seq<Row>, rule: string)
    ensures forall k :: 0 <= k < |WithoutRule(rows, rule)| ==> WithoutRule(rows, rule)[k].finding.rule != rule
  {
    if rows != [] {
      KeptHaveOtherRules(rows[..|rows| - 1], rule);
    }
  }

  lemma {:induction false} UnknownsConcat(a: seq<Inconclusive>, b: seq<Inconclusive>, rule: string)
    ensures UnknownsOfOthers(a + b, rule) == UnknownsOfOthers(a, rule) + UnknownsOfOthers(b, rule)
    ensures UnknownsOfRule(a + b, rule) == UnknownsOfRule(a, rule) + UnknownsOfRule(b, rule)
  {
    if b == [] {
      assert a + b == a;
    } else {
      assert (a + b)[..|a + b| - 1] == a + b[..|b| - 1];
      UnknownsConcat(a, b[..|b| - 1], rule);
    }
  }

  lemma {:induction false} WithoutInconclusiveIsOthers(incs: seq<Inconclusive>, rule: string)
    ensures UnknownsOfOthers(WithoutInconclusive(incs, rule), rule) == UnknownsOfOthers(incs, rule)
    ensures UnknownsOfRule(WithoutInconclusive(incs, rule), rule) == []
  {
    if incs != [] {
      var front, last := WithoutInconclusive(incs[..|incs| - 1], rule), incs[|incs| - 1];
      WithoutInconclusiveIsOthers(incs[..|incs| - 1], rule);
      var one := if last.rule == rule then [] else [last];
      UnknownsConcat(front, one, rule);
      if one != [] { assert one[..0] == []; }
    }
  }

  lemma {:induction false} AllUnknownsOfRule(incs: seq<Inconclusive>, rule: string)
    requires forall k :: 0 <= k < |incs| ==> incs[k].rule == rule
    ensures UnknownsOfOthers(incs, rule) == [] && UnknownsOfRule(incs, rule) == incs
  {
    if incs != [] {
      AllUnknownsOfRule(incs[..|incs| - 1], rule);
    }
  }

  /** The inconclusives of the other rules stay; those of the rule are the run's, in order. */
  lemma RunReplacesItsOwnUnknowns(t: Table, rule: string, findings: seq<Finding>, incs: seq<Inconclusive>)
    requires forall k :: 0 <= k < |incs| ==> incs[k].rule == rule
    ensures var v := Step(t, RunRule(rule, findings, incs));
      && UnknownsOfOthers(v.inconclusives, rule) == UnknownsOfOthers(t.inconclusives, rule)
      && UnknownsOfRule(v.inconclusives, rule) == incs
  {
    WithoutInconclusiveIsOthers(t.inconclusives, rule);
    AllUnknownsOfRule(incs, rule);
    UnknownsConcat(WithoutInconclusive(t.inconclusives, rule), incs, rule);
  }

  /** A run only appends to the log, and the next run has another number. */
  lemma LogOnlyGrows(t: Table, op: Op)
    ensures var v := Step(t, op); |t.events| <= |v.events| && v.events[..|t.events|] == t.events
    ensures op.RunRule? ==> Step(t, op).nextRun == t.nextRun + 1
  {
  }

  lemma {:induction false} EventsAreOfOneKind(keys: seq<Fingerprint>, other: seq<Fingerprint>, rows: seq<Row>, appeared: bool, run: nat)
    ensures forall e :: e in EventsFor(keys, other, rows, appeared, run) ==> e.appeared == appeared && e.run == run
  {
    if keys != [] {
      EventsAreOfOneKind(keys[..|keys| - 1], other, rows, appeared, run);
    }
  }

  /** What a run appends is stamped with this run, and its appearances come before its
      resolutions. */
  lemma AppearancesComeFirst(t: Table, rule: string, findings: seq<Finding>, incs: seq<Inconclusive>, i: nat, j: nat)
    requires |t.events| <= i < j < |Step(t, RunRule(rule, findings, incs)).events|
    ensures var v := Step(t, RunRule(rule, findings, incs));
      v.events[i].run == v.events[j].run == t.nextRun && (v.events[j].appeared ==> v.events[i].appeared)
  {
    var after := Replaced(t.insights, rule, findings, t.nextId);
    var was, now := SnapshotKeys(t.insights, rule), SnapshotKeys(after, rule);
    var all := Diff(t.insights, after, rule, t.nextRun);
    var first := EventsFor(now, was, after, true, t.nextRun);
    EventsAreOfOneKind(now, was, after, true, t.nextRun);
    EventsAreOfOneKind(was, now, t.insights, false, t.nextRun);
    forall k | 0 <= k < |all|
      ensures all[k].run == t.nextRun && (all[k].appeared <==> k < |first|)
    {
      if k < |first| { assert all[k] == first[k]; }
    }
  }

  // ---------------------------------------------------------------- a patch

  /** A patch with one of the four statuses sets the ack of the rows with its id and changes
      nothing else; with any other status it changes nothing. */
  lemma PatchIsExact(t: Table, id: nat, ack: Ack, k: nat)
    requires k < |t.insights|
    ensures var v, r := Step(t, Patch(id, ack)), t.insights[k];
      var known := ack.status == "acknowledged" || ack.status == "in_progress" || ack.status == "resolved" || ack.status == "dismissed";
      && v.inconclusives == t.inconclusives && v.events == t.events && v.nextId == t.nextId && v.nextRun == t.nextRun
      && |v.insights| == |t.insights|
      && v.insights[k] == if known && r.id == id then Row(r.id, r.finding, Some(ack)) else r
  {
  }
}

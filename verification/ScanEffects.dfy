/** What each scan call changes and what it leaves alone, said without the functions that compute
    it (apps/api/src/constat_api/repositories/source_runs.py, resources.py and
    collectors/aws.py). */
module ScanEffects {
  import opened Wrappers
  import opened ScanProof
  import opened ScanTables

  /** A start touches no run that was there, except that a forced one fails, now, the runs that
      are running under exactly its scope and source. */
  lemma StartSparesOthers(s: Store, scope: Scope, source: string, force: bool, k: nat)
    requires k < |s.runs|
    ensures var v, r := Step(s, Start(scope, source, force)), s.runs[k];
      && k < |v.runs|
      && v.runs[k].scope == r.scope && v.runs[k].source == r.source && v.runs[k].startedAt == r.startedAt
      && v.runs[k].resourcesFound == r.resourcesFound
      && (if force && r.status == Running && r.scope == scope && r.source == source
          then v.runs[k].status == Failed && v.runs[k].finishedAt == Some(s.clock)
          else v.runs[k].status == r.status && v.runs[k].finishedAt == r.finishedAt)
  {
  }

  /** It adds one running run, unless one of its scope and source is running and it is not
      forced; then it changes nothing. */
  lemma StartAddsOne(s: Store, scope: Scope, source: string, force: bool)
    ensures var v := Step(s, Start(scope, source, force));
      var taken := exists k :: 0 <= k < |s.runs| && s.runs[k].status == Running && s.runs[k].scope == scope && s.runs[k].source == source;
      && v.resources == s.resources && v.clock == s.clock && v.sightings == s.sightings
      && (taken && !force ==> v == s)
      && (!taken || force ==>
            && |v.runs| == |s.runs| + 1 && v.open == s.open + {|s.runs|}
            && v.runs[|s.runs|] == SourceRun(scope, source, s.clock, None, Running, None))
  {
    if force {
      AbortedHasNoActive(s.runs, scope, source, s.clock);
    }
  }

  /** A finish closes its own run, with the given status and now, and touches nothing else. */
  lemma FinishTouchesOne(s: Store, run: nat, status: RunStatus, found: Option<nat>)
    requires run in s.open && run < |s.runs| && status != Running
    ensures var v := Step(s, Finish(run, status, found));
      && |v.runs| == |s.runs| && v.resources == s.resources && v.open == s.open - {run}
      && v.runs[run].status == status && v.runs[run].finishedAt == Some(s.clock)
      && (found.Some? ==> v.runs[run].resourcesFound == found)
      && v.runs[run].scope == s.runs[run].scope && v.runs[run].source == s.runs[run].source
      && v.runs[run].startedAt == s.runs[run].startedAt
      && forall k :: 0 <= k < |s.runs| && k != run ==> v.runs[k] == s.runs[k]
  {
  }

  /** A cleanup fails, now, exactly the runs running since before the cutoff. */
  lemma CleanupIsExact(s: Store, threshold: real, k: nat)
    requires k < |s.runs|
    ensures var v, r := Step(s, Cleanup(threshold)), s.runs[k];
      && |v.runs| == |s.runs| && v.resources == s.resources && v.clock == s.clock
      && (if r.status == Running && r.startedAt < s.clock - threshold
          then v.runs[k] == SourceRun(r.scope, r.source, r.startedAt, Some(s.clock), Failed, r.resourcesFound)
          else v.runs[k] == r)
  {
  }

  ghost function StuckBelow(runs: seq<SourceRun>, threshold: real, now: real, n: nat): set<nat>
    requires n <= |runs|
  {
    set k: nat | k < n && runs[k].status == Running && runs[k].startedAt < now - threshold
  }

  lemma OneMoreStuck(runs: seq<SourceRun>, threshold: real, now: real, n: nat)
    requires n < |runs|
    ensures StuckBelow(runs, threshold, now, n + 1)
      == StuckBelow(runs, threshold, now, n) + if runs[n].status == Running && runs[n].startedAt < now - threshold then {n} else {}
  {
  }

  /** The count a cleanup returns is the number of such runs. */
  lemma {:induction false} StuckCountIsExact(runs: seq<SourceRun>, threshold: real, now: real, n: nat)
    requires n <= |runs|
    ensures StuckCount(runs[..n], threshold, now) == |StuckBelow(runs, threshold, now, n)|
  {
    if n == 0 {
      assert StuckBelow(runs, threshold, now, 0) == {};
    } else {
      StuckCountIsExact(runs, threshold, now, n - 1);
      OneMoreStuck(runs, threshold, now, n - 1);
      assert runs[..n][..n - 1] == runs[..n - 1];
    }
  }

  /** A sighting makes its resource active and seen now, first seen now if it is new, and touches
      no other. */
  lemma SeeTouchesOne(s: Store, run: nat, nativeId: string)
    requires run in s.open && run < |s.runs|
    ensures var v, key := Step(s, See(run, nativeId)), Key(s.runs[run].scope, nativeId);
      && v.runs == s.runs && v.resources.Keys == s.resources.Keys + {key}
      && v.resources[key].lastSeenAt == s.clock && v.resources[key].retiredAt == None
      && v.resources[key].firstSeenAt == (if key in s.resources then s.resources[key].firstSeenAt else s.clock)
      && forall x :: x in s.resources && x != key ==> v.resources[x] == s.resources[x]
  {
  }

  /** A successful run of exactly this scope and source that started after `t`. */
  ghost predicate SucceededAfter(r: SourceRun, scope: Scope, source: string, t: real) {
    r.status == Success && r.scope == scope && r.source == source && t < r.startedAt
  }

  ghost predicate TwoSucceededAfter(runs: seq<SourceRun>, scope: Scope, source: string, t: real) {
    exists i, j :: 0 <= i < j < |runs| && SucceededAfter(runs[i], scope, source, t) && SucceededAfter(runs[j], scope, source, t)
  }

  lemma MissedTwiceIs(runs: seq<SourceRun>, scope: Scope, source: string, t: real)
    ensures MissedTwice(runs, scope, source, t) <==> TwoSucceededAfter(runs, scope, source, t)
  {
    if MissedTwice(runs, scope, source, t) {
      var i, j :| 0 <= i < |runs| && 0 <= j < |runs| && i != j
        && Proves(runs[i], scope, source) && Proves(runs[j], scope, source)
        && t < runs[i].startedAt && t < runs[j].startedAt;
      assert SucceededAfter(runs[i], scope, source, t) && SucceededAfter(runs[j], scope, source, t);
      if i > j { assert 0 <= j < i; }
    }
    if TwoSucceededAfter(runs, scope, source, t) {
      var i, j :| 0 <= i < j < |runs| && SucceededAfter(runs[i], scope, source, t) && SucceededAfter(runs[j], scope, source, t);
      assert Proves(runs[i], scope, source) && Proves(runs[j], scope, source);
    }
  }

  /** A sweep stamps, now, exactly the active resources of its scope that two successful runs of
      its scope and source missed, and changes nothing else about anything. */
  lemma SweepStampsOnlyMissed(s: Store, scope: Scope, source: string, key: Key)
    requires key in s.resources
    ensures var v, r := Step(s, Sweep(scope, source)), s.resources[key];
      && v.runs == s.runs && v.clock == s.clock && v.resources.Keys == s.resources.Keys
      && v.resources[key].firstSeenAt == r.firstSeenAt && v.resources[key].lastSeenAt == r.lastSeenAt
      && v.resources[key].retiredAt ==
           if r.retiredAt == None && key.scope == scope && TwoSucceededAfter(s.runs, scope, source, r.lastSeenAt)
           then Some(s.clock) else r.retiredAt
  {
    SweepIsExact(s, scope, source, key);
    MissedTwiceIs(s.runs, scope, source, s.resources[key].lastSeenAt);
  }

  // ---------------------------------------------------------------- one job

  /** Seeing the items changes no run and no resource that is not among them. */
  lemma {:induction false} SeeingTouchesOnlyItems(s: Store, run: nat, scope: Scope, items: seq<string>, ticks: nat -> real, key: Key)
    requires run in s.open && run < |s.runs| && s.runs[run].scope == scope
    requires forall i :: 0 <= i < |items| ==> key != Key(scope, items[i])
    ensures var v := Run(s, SeeOps(run, items, ticks));
      && v.runs == s.runs && v.open == s.open
      && (key in v.resources <==> key in s.resources) && (key in s.resources ==> v.resources[key] == s.resources[key])
  {
    if items != [] {
      var k := |items| - 1;
      SeeingTouchesOnlyItems(s, run, scope, items[..k], ticks, key);
      var u := Run(s, SeeOps(run, items[..k], ticks));
      RunAppend(s, SeeOps(run, items[..k], ticks), [Wait(ticks(k)), See(run, items[k])]);
      RunTwo(u, Wait(ticks(k)), See(run, items[k]));
      SeeTouchesOne(Step(u, Wait(ticks(k))), run, items[k]);
    }
  }

  lemma LastSweep(s: Store, run: nat, scope: Scope, source: string, items: seq<string>, ticks: nat -> real, key: Key)
    requires run in s.open && run < |s.runs| && key in s.resources
    ensures var v, r := Run(s, CloseOps(run, scope, source, false, items, Completed, ticks)), s.resources[key];
      && key in v.resources && v.resources[key].lastSeenAt == r.lastSeenAt && v.resources[key].firstSeenAt == r.firstSeenAt
      && v.resources[key].retiredAt ==
           if r.retiredAt == None && key.scope == scope && TwoSucceededAfter(v.runs, scope, source, r.lastSeenAt)
           then Some(v.clock) else r.retiredAt
  {
    CloseInParts(s, run, scope, source, false, items, Completed, ticks);
    SweepStampsOnlyMissed(Step(Step(s, Wait(ticks(|items|))), Finish(run, Success, Some(|items|))), scope, source, key);
  }

  /** After a completed scan that was not a dry run, exactly the active resources of its scope that
      it did not yield and that two successful runs, its own included, started after are retired. */
  lemma CompletedJobSweeps(s: Store, scope: Scope, source: string, force: bool, items: seq<string>, ticks: nat -> real, key: Key)
    requires RunsOk(s) && (force || !HasActive(s.runs, scope, source))
    requires key in s.resources && forall i :: 0 <= i < |items| ==> key != Key(scope, items[i])
    ensures var v, r := Run(s, JobOps(|s.runs|, scope, source, force, false, items, Completed, ticks)), s.resources[key];
      && key in v.resources && v.resources[key].lastSeenAt == r.lastSeenAt && v.resources[key].firstSeenAt == r.firstSeenAt
      && v.resources[key].retiredAt ==
           if r.retiredAt == None && key.scope == scope && TwoSucceededAfter(v.runs, scope, source, r.lastSeenAt)
           then Some(v.clock) else r.retiredAt
  {
    var run := |s.runs|;
    var s1 := Step(s, Start(scope, source, force));
    StartOpens(s, scope, source, force);
    StartAddsOne(s, scope, source, force);
    SeesEveryItem(s1, run, scope, items, ticks);
    JobInParts(s, run, scope, source, force, false, items, Completed, ticks);
    var s2 := Run(s1, SeeOps(run, items, ticks));
    SeeingTouchesOnlyItems(s1, run, scope, items, ticks, key);
    LastSweep(s2, run, scope, source, items, ticks, key);
  }

  /** The run a job leaves behind is a success exactly when its scan ran to completion, and counts
      the items; a resource the job did not yield is touched only by the sweep of a completed
      scan. */
  lemma JobLeavesItsOutcome(s: Store, scope: Scope, source: string, force: bool, dryRun: bool, items: seq<string>,
                            outcome: ScanOutcome, ticks: nat -> real, key: Key)
    requires RunsOk(s) && (force || !HasActive(s.runs, scope, source))
    ensures var run := |s.runs|;
      var v := Run(s, JobOps(run, scope, source, force, dryRun, items, outcome, ticks));
      && |v.runs| == run + 1 && v.runs[run].scope == scope && v.runs[run].source == source && v.runs[run].finishedAt.Some?
      && v.runs[run].status == (if outcome == Completed then Success else Failed)
      && v.runs[run].resourcesFound == Some(|items|)
      && ((outcome != Completed || dryRun) && (forall i :: 0 <= i < |items| ==> key != Key(scope, items[i])) ==>
            (key in v.resources <==> key in s.resources) && (key in s.resources ==> v.resources[key] == s.resources[key]))
  {
    var run := |s.runs|;
    var s1 := Step(s, Start(scope, source, force));
    StartOpens(s, scope, source, force);
    StartAddsOne(s, scope, source, force);
    SeesEveryItem(s1, run, scope, items, ticks);
    JobInParts(s, run, scope, source, force, dryRun, items, outcome, ticks);
    var s2 := Run(s1, SeeOps(run, items, ticks));
    CloseInParts(s2, run, scope, source, dryRun, items, outcome, ticks);
    if forall i :: 0 <= i < |items| ==> key != Key(scope, items[i]) {
      SeeingTouchesOnlyItems(s1, run, scope, items, ticks, key);
    }
  }
}

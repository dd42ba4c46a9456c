/** The scan tables as the program updates them, the region job that drives one scan, and the
    freshness query the rules rely on. Sources:
    apps/api/src/constat_api/repositories/source_runs.py, resources.py and collectors/aws.py. */
module ScanTables {
  import opened Wrappers
  import opened ScanProof

  /** How the scan loop of one region job ended. */
  datatype ScanOutcome =
    | Completed
    | ProviderError   // caught: ClientError or BotoCoreError
    | Escaped         // any other exception, re-raised after the run was closed

  datatype RegionResult =
    | AlreadyRunning
    | Scanned(resources: nat, error: bool)
    | Raised

  function SeeOps(run: nat, items: seq<string>, ticks: nat -> real): seq<Op> {
    if items == [] then []
    else
      var k := |items| - 1;
      SeeOps(run, items[..k], ticks) + [Wait(ticks(k)), See(run, items[k])]
  }

  function CloseOps(run: nat, scope: Scope, source: string, dryRun: bool, items: seq<string>, outcome: ScanOutcome,
                    ticks: nat -> real): seq<Op>
  {
    [Wait(ticks(|items|)), Finish(run, if outcome == Completed then Success else Failed, Some(|items|))]
    + if outcome == Completed && !dryRun then [Sweep(scope, source)] else []
  }

  /** Everything one region job does: start, see each item, close the run whatever happened,
      and sweep only after a scan that ran to completion and was not a dry run. */
  function JobOps(run: nat, scope: Scope, source: string, force: bool, dryRun: bool, items: seq<string>,
                  outcome: ScanOutcome, ticks: nat -> real): seq<Op>
  {
    [Start(scope, source, force)] + SeeOps(run, items, ticks) + CloseOps(run, scope, source, dryRun, items, outcome, ticks)
  }

  lemma {:induction false} RunAppend(s: Store, a: seq<Op>, b: seq<Op>)
    ensures Run(s, a + b) == Run(Run(s, a), b)
    decreases a
  {
    if a == [] {
      assert a + b == b;
    } else {
      assert (a + b)[0] == a[0] && (a + b)[1..] == a[1..] + b;
      RunAppend(Step(s, a[0]), a[1..], b);
    }
  }

  lemma RunOne(s: Store, op: Op)
    ensures Run(s, [op]) == Step(s, op)
  {
    assert Run(Step(s, op), []) == Step(s, op);
  }

  lemma RunTwo(s: Store, a: Op, b: Op)
    ensures Run(s, [a, b]) == Step(Step(s, a), b)
  {
    RunOne(Step(s, a), b);
    assert [a, b][1..] == [b];
  }

  /** The job in its three parts. */
  lemma JobInParts(s: Store, run: nat, scope: Scope, source: string, force: bool, dryRun: bool, items: seq<string>,
                   outcome: ScanOutcome, ticks: nat -> real)
    ensures Run(s, JobOps(run, scope, source, force, dryRun, items, outcome, ticks))
      == Run(Run(Step(s, Start(scope, source, force)), SeeOps(run, items, ticks)),
             CloseOps(run, scope, source, dryRun, items, outcome, ticks))
  {
    var start := [Start(scope, source, force)];
    RunOne(s, start[0]);
    RunAppend(s, start + SeeOps(run, items, ticks), CloseOps(run, scope, source, dryRun, items, outcome, ticks));
    RunAppend(s, start, SeeOps(run, items, ticks));
  }

  lemma CloseInParts(s: Store, run: nat, scope: Scope, source: string, dryRun: bool, items: seq<string>,
                     outcome: ScanOutcome, ticks: nat -> real)
    ensures var status := if outcome == Completed then Success else Failed;
      var v := Step(Step(s, Wait(ticks(|items|))), Finish(run, status, Some(|items|)));
      Run(s, CloseOps(run, scope, source, dryRun, items, outcome, ticks))
      == if outcome == Completed && !dryRun then Step(v, Sweep(scope, source)) else v
  {
    var tail := [Wait(ticks(|items|)), Finish(run, if outcome == Completed then Success else Failed, Some(|items|))];
    RunTwo(s, tail[0], tail[1]);
    if outcome == Completed && !dryRun {
      RunAppend(s, tail, [Sweep(scope, source)]);
      RunOne(Run(s, tail), Sweep(scope, source));
    } else {
      assert tail + [] == tail;
    }
  }

  /** How many runs are stuck: running since before the cutoff. */
  function StuckCount(runs: seq<SourceRun>, threshold: real, now: real): nat {
    if runs == [] then 0
    else
      var r := runs[|runs| - 1];
      StuckCount(runs[..|runs| - 1], threshold, now) + Bit(r.status == Running && r.startedAt < now - threshold)
  }

  // ---------------------------------------------------------------- the tables

  class Tables {
    var runs: seq<SourceRun>
    var resources: map<Key, Resource>
    var clock: real
    ghost var open: set<nat>
    ghost var sightings: seq<Sighting>

    ghost function State(): Store
      reads this
    {
      Store(runs, resources, clock, open, sightings)
    }

    constructor ()
      ensures State() == EMPTY
    {
      runs, resources, clock := [], map[], 0.0;
      open, sightings := {}, [];
    }

    method Pass(elapsed: real)
      modifies this
      ensures State() == Step(old(State()), Wait(elapsed))
    {
      if elapsed > 0.0 {
        clock := clock + elapsed;
      }
    }

    method AbortActiveRun(scope: Scope, source: string)
      modifies `runs
      ensures runs == Aborted(old(runs), scope, source, clock)
    {
      for k := 0 to |runs|
        invariant |runs| == |old(runs)|
        invariant forall m :: 0 <= m < |runs| ==>
          runs[m] == if m < k then Aborted(old(runs), scope, source, clock)[m] else old(runs)[m]
      {
        if IsActive(runs[k], scope, source) {
          runs := runs[k := runs[k].(finishedAt := Some(clock), status := Failed)];
        }
      }
    }

    method StartRun(scope: Scope, source: string, force: bool) returns (id: Option<nat>)
      modifies this
      ensures State() == Step(old(State()), Start(scope, source, force))
      ensures id == Started(old(runs), scope, source, force, clock).1
      ensures id.Some? ==> id.value == |old(runs)| && id.value in open
      ensures id.None? ==> State() == old(State()) && HasActive(old(runs), scope, source) && !force
    {
      if force {
        AbortActiveRun(scope, source);
      }
      if HasActive(runs, scope, source) {
        return None;
      }
      id := Some(|runs|);
      runs := runs + [SourceRun(scope, source, clock, None, Running, None)];
      open := open + {id.value};
    }

    method FinishRun(run: nat, status: RunStatus, found: Option<nat>)
      requires run in open && run < |runs| && status != Running
      modifies this
      ensures State() == Step(old(State()), Finish(run, status, found))
    {
      var r := runs[run].(finishedAt := Some(clock), status := status);
      if found.Some? {
        r := r.(resourcesFound := found);
      }
      runs := runs[run := r];
      open := open - {run};
    }

    method CleanupStuckRuns(threshold: real) returns (cleaned: nat)
      modifies `runs
      ensures State() == Step(old(State()), Cleanup(threshold))
      ensures cleaned == StuckCount(old(runs), threshold, clock)
    {
      cleaned := 0;
      for k := 0 to |runs|
        invariant |runs| == |old(runs)|
        invariant forall m :: 0 <= m < |runs| ==>
          runs[m] == if m < k then Cleaned(old(runs), threshold, clock)[m] else old(runs)[m]
        invariant cleaned == StuckCount(old(runs)[..k], threshold, clock)
      {
        assert old(runs)[..k + 1][..k] == old(runs)[..k];
        if runs[k].status == Running && runs[k].startedAt < clock - threshold {
          runs := runs[k := runs[k].(finishedAt := Some(clock), status := Failed)];
          cleaned := cleaned + 1;
        }
      }
      assert runs == Cleaned(old(runs), threshold, clock) && old(runs)[..|old(runs)|] == old(runs);
    }

    method UpsertResource(ghost run: nat, key: Key)
      requires run in open && run < |runs| && runs[run].scope == key.scope
      modifies this
      ensures State() == Step(old(State()), See(run, key.nativeId))
    {
      if key in resources {
        var existing := resources[key];
        if existing.retiredAt.Some? {
          existing := existing.(retiredAt := None);
        }
        resources := resources[key := existing.(lastSeenAt := clock)];
      } else {
        resources := resources[key := Resource(clock, clock, None)];
      }
      sightings := sightings + [Sighting(run, key, clock)];
    }

    method RetireStaleResources(scope: Scope, source: string) returns (retired: nat)
      modifies `resources
      ensures State() == Step(old(State()), Sweep(scope, source))
      ensures retired == |StaleKeys(old(resources), runs, scope, source)|
    {
      var stale := StaleKeys(resources, runs, scope, source);
      retired := |stale|;
      var todo := stale;
      while todo != {}
        invariant todo <= stale <= old(resources).Keys
        invariant resources.Keys == old(resources).Keys
        invariant forall k :: k in resources ==>
          resources[k] == if k in stale && k !in todo then old(resources)[k].(retiredAt := Some(clock)) else old(resources)[k]
        decreases |todo|
      {
        var k :| k in todo;
        resources := resources[k := resources[k].(retiredAt := Some(clock))];
        todo := todo - {k};
      }
      assert resources == Retired(old(resources), stale, clock);
    }

    method SeeItems(run: nat, scope: Scope, items: seq<string>, ticks: nat -> real)
      requires run in open && run < |runs| && runs[run].scope == scope
      modifies this
      ensures State() == Run(old(State()), SeeOps(run, items, ticks))
      ensures run in open && run < |runs| && runs[run].scope == scope
    {
      ghost var s := State();
      for k := 0 to |items|
        invariant State() == Run(s, SeeOps(run, items[..k], ticks))
        invariant run in open && run < |runs| && runs[run].scope == scope
      {
        ghost var before := Run(s, SeeOps(run, items[..k], ticks));
        Pass(ticks(k));
        UpsertResource(run, Key(scope, items[k]));
        assert items[..k + 1][..k] == items[..k];
        RunAppend(s, SeeOps(run, items[..k], ticks), [Wait(ticks(k)), See(run, items[k])]);
        RunTwo(before, Wait(ticks(k)), See(run, items[k]));
      }
      assert items[..|items|] == items;
    }

    method CloseRun(run: nat, scope: Scope, source: string, dryRun: bool, items: seq<string>, outcome: ScanOutcome,
                    ticks: nat -> real)
      requires run in open && run < |runs|
      modifies this
      ensures State() == Run(old(State()), CloseOps(run, scope, source, dryRun, items, outcome, ticks))
    {
      CloseInParts(State(), run, scope, source, dryRun, items, outcome, ticks);
      Pass(ticks(|items|));
      var status := if outcome == Completed then Success else Failed;
      FinishRun(run, status, Some(|items|));
      if status == Success && !dryRun {
        var _ := RetireStaleResources(scope, source);
      }
    }

    /** One (region, job) pair. `items` are the native ids the scan yields before it ends with
        `outcome`; `ticks(k)` is the time that passes before item `k` and before closing. */
    method RunRegionJob(scope: Scope, source: string, force: bool, dryRun: bool, items: seq<string>,
                        outcome: ScanOutcome, ticks: nat -> real)
      returns (result: RegionResult)
      modifies this
      ensures result == AlreadyRunning <==> !force && HasActive(old(runs), scope, source)
      ensures result == AlreadyRunning ==> State() == old(State())
      ensures result != AlreadyRunning ==>
        result == if outcome == Escaped then Raised else Scanned(|items|, outcome == ProviderError)
      ensures result != AlreadyRunning ==>
        State() == Run(old(State()), JobOps(|old(runs)|, scope, source, force, dryRun, items, outcome, ticks))
    {
      ghost var s := State();
      var id := StartRun(scope, source, force);
      if id == None {
        return AlreadyRunning;
      }
      AbortedHasNoActive(old(runs), scope, source, clock);
      JobInParts(s, id.value, scope, source, force, dryRun, items, outcome, ticks);
      SeeItems(id.value, scope, items, ticks);
      CloseRun(id.value, scope, source, dryRun, items, outcome, ticks);
      return if outcome == Escaped then Raised else Scanned(|items|, outcome == ProviderError);
    }
  }

  lemma AbortedHasNoActive(runs: seq<SourceRun>, scope: Scope, source: string, now: real)
    ensures !HasActive(Aborted(runs, scope, source, now), scope, source)
  {
  }

  // ---------------------------------------------------------------- what one job changes

  ghost predicate NoSweep(ops: seq<Op>) {
    forall k :: 0 <= k < |ops| ==> !ops[k].Sweep?
  }

  lemma {:induction false} OnlySweepsRetire(s: Store, ops: seq<Op>, key: Key)
    requires NoSweep(ops)
    requires key in Run(s, ops).resources && Run(s, ops).resources[key].retiredAt.Some?
    ensures key in s.resources && s.resources[key] == Run(s, ops).resources[key]
    decreases ops
  {
    if ops != [] {
      OnlySweepsRetire(Step(s, ops[0]), ops[1..], key);
    }
  }

  lemma {:induction false} SeeOpsDoNotSweep(run: nat, items: seq<string>, ticks: nat -> real)
    ensures NoSweep(SeeOps(run, items, ticks))
  {
    if items != [] {
      SeeOpsDoNotSweep(run, items[..|items| - 1], ticks);
    }
  }

  /** A scan that did not run to completion, or a dry run, retires nothing at all. */
  lemma IncompleteScanRetiresNothing(s: Store, run: nat, scope: Scope, source: string, force: bool, dryRun: bool,
                                     items: seq<string>, outcome: ScanOutcome, ticks: nat -> real, key: Key)
    requires outcome != Completed || dryRun
    requires var v := Run(s, JobOps(run, scope, source, force, dryRun, items, outcome, ticks));
      key in v.resources && v.resources[key].retiredAt.Some?
    ensures key in s.resources && s.resources[key].retiredAt.Some?
  {
    SeeOpsDoNotSweep(run, items, ticks);
    OnlySweepsRetire(s, JobOps(run, scope, source, force, dryRun, items, outcome, ticks), key);
  }

  lemma {:induction false} SeesEveryItem(s: Store, run: nat, scope: Scope, items: seq<string>, ticks: nat -> real)
    requires run in s.open && run < |s.runs| && s.runs[run].scope == scope
    ensures var v := Run(s, SeeOps(run, items, ticks));
      && v.runs == s.runs && v.open == s.open && s.clock <= v.clock
      && forall i :: 0 <= i < |items| ==>
           var key := Key(scope, items[i]);
           key in v.resources && v.resources[key].retiredAt == None && s.clock <= v.resources[key].lastSeenAt
  {
    if items != [] {
      var k := |items| - 1;
      SeesEveryItem(s, run, scope, items[..k], ticks);
      var u := Run(s, SeeOps(run, items[..k], ticks));
      RunAppend(s, SeeOps(run, items[..k], ticks), [Wait(ticks(k)), See(run, items[k])]);
      RunTwo(u, Wait(ticks(k)), See(run, items[k]));
      var v := Run(s, SeeOps(run, items, ticks));
      forall i | 0 <= i < |items|
        ensures var key := Key(scope, items[i]);
          key in v.resources && v.resources[key].retiredAt == None && s.clock <= v.resources[key].lastSeenAt
      {
        if i < k { assert items[..k][i] == items[i]; }
      }
    }
  }

  /** A sweep leaves alone what was seen after every run started. */
  lemma SweepSparesTheSeen(s: Store, scope: Scope, source: string, key: Key)
    requires key in s.resources && s.resources[key].retiredAt == None
    requires forall k :: 0 <= k < |s.runs| ==> s.runs[k].startedAt <= s.resources[key].lastSeenAt
    ensures Step(s, Sweep(scope, source)).resources[key] == s.resources[key]
  {
    SweepIsExact(s, scope, source, key);
  }

  lemma StartOpens(s: Store, scope: Scope, source: string, force: bool)
    requires RunsOk(s) && (force || !HasActive(s.runs, scope, source))
    ensures var v := Step(s, Start(scope, source, force));
      && |v.runs| == |s.runs| + 1 && |s.runs| in v.open && v.clock == s.clock
      && v.runs[|s.runs|].scope == scope && v.runs[|s.runs|].source == source
      && forall k :: 0 <= k < |v.runs| ==> v.runs[k].startedAt <= v.clock
  {
    AbortedHasNoActive(s.runs, scope, source, s.clock);
  }

  /** The last finish of a scan closes its run and, swept or not, leaves what it saw active. */
  lemma FinishProves(s: Store, run: nat, scope: Scope, source: string, found: nat, elapsed: real, key: Key)
    requires run in s.open && run < |s.runs| && s.runs[run].scope == scope && s.runs[run].source == source
    requires key in s.resources && s.resources[key].retiredAt == None
    requires forall k :: 0 <= k < |s.runs| ==> s.runs[k].startedAt <= s.resources[key].lastSeenAt
    ensures var v := Step(Step(s, Wait(elapsed)), Finish(run, Success, Some(found)));
      && run < |v.runs| && Proves(v.runs[run], scope, source) && v.runs[run].finishedAt.Some?
      && v.runs[run].startedAt == s.runs[run].startedAt
      && v.resources == s.resources
      && Step(v, Sweep(scope, source)).runs == v.runs
      && key in Step(v, Sweep(scope, source)).resources && Step(v, Sweep(scope, source)).resources[key] == s.resources[key]
  {
    SweepSparesTheSeen(Step(Step(s, Wait(elapsed)), Finish(run, Success, Some(found))), scope, source, key);
  }

  /** A completed scan proves its scope: its run is a finished success, and every item it
      yielded is an active resource seen no earlier than the run started, its own sweep
      included. */
  lemma CompletedScanProves(s: Store, scope: Scope, source: string, force: bool, dryRun: bool, items: seq<string>,
                            ticks: nat -> real, i: nat)
    requires RunsOk(s) && (force || !HasActive(s.runs, scope, source)) && i < |items|
    ensures var run := |s.runs|;
      var v := Run(s, JobOps(run, scope, source, force, dryRun, items, Completed, ticks));
      var key := Key(scope, items[i]);
      && run < |v.runs| && Proves(v.runs[run], scope, source) && v.runs[run].finishedAt.Some?
      && key in v.resources && v.resources[key].retiredAt == None
      && v.runs[run].startedAt <= v.resources[key].lastSeenAt
  {
    var run := |s.runs|;
    var s1 := Step(s, Start(scope, source, force));
    StartOpens(s, scope, source, force);
    SeesEveryItem(s1, run, scope, items, ticks);
    JobInParts(s, run, scope, source, force, dryRun, items, Completed, ticks);
    var s2 := Run(s1, SeeOps(run, items, ticks));
    CloseInParts(s2, run, scope, source, dryRun, items, Completed, ticks);
    FinishProves(s2, run, scope, source, |items|, ticks(|items|), Key(scope, items[i]));
  }
}

/** Which requests can be evaluated at all: exactly those that ask for something, and for nothing
    twice (apps/api/src/constat_api/routers/aws.py and worker.py). */
module SomeSchedule {
  import opened Wrappers
  import opened CollectQueue
  import opened CollectWorker
  import opened QueueHistory
  import opened CollectProtocol

  /** Reachable, and the first job is the request's and its evaluation started. */
  ghost predicate Evaluates(p: Pool, targets: seq<Target>) {
    && Reachable(p) && 0 in p.plans && p.plans[0] == PlanFor(0, targets)
    && 0 in p.jobs && p.jobs[0].status != NotEvaluated
  }

  // ---------------------------------------------------------------- one worker, item by item

  function DoneRuns(plan: seq<WorkItem>, n: nat): (r: seq<SourceRun>)
    requires n <= |plan|
    ensures |r| == n && forall k :: 0 <= k < n ==> r[k] == SourceRun(Some(0), plan[k].scope, "rds", Done)
  {
    seq(n, k requires 0 <= k < n => SourceRun(Some(0), plan[k].scope, "rds", Done))
  }

  /** The only worker is at `phase` with `rest` to go, after `n` items were scanned. */
  ghost predicate Busy(p: Pool, plan: seq<WorkItem>, phase: Phase, rest: seq<Entry<WorkItem>>, n: nat, counts: map<string, nat>)
    requires n <= |plan|
  {
    && Reachable(p) && p.workers == [Worker(phase, rest)] && p.cap == 1 && p.counts == counts
    && p.jobs == map[0 := Job(|plan|, false, NotEvaluated)] && 0 in p.plans && p.plans[0] == plan
    && p.runs == DoneRuns(plan, n)
  }

  /** What was received is the plan, in order. */
  ghost predicate Matches(batch: seq<Entry<WorkItem>>, plan: seq<WorkItem>) {
    |batch| == |plan| && forall k :: 0 <= k < |plan| ==> batch[k].item == plan[k] && plan[k].job == 0
  }

  lemma Acquires(p: Pool, plan: seq<WorkItem>, batch: seq<Entry<WorkItem>>, n: nat) returns (v: Pool)
    requires n < |plan| && Matches(batch, plan) && Busy(p, plan, Idle, batch[n..], n, map[])
    ensures Busy(v, plan, Scanning(batch[n]), batch[n + 1..], n, map[plan[n].scope.account := 1])
  {
    assert batch[n..][1..] == batch[n + 1..] && batch[n..][0] == batch[n];
    var u := Apply(p, At(0, LookUp));
    ReachableStep(p, At(0, LookUp));
    assert u.workers == [Worker(Found(batch[n]), batch[n + 1..])];
    v := Apply(u, At(0, Acquire));
    ReachableStep(u, At(0, Acquire));
  }

  lemma Begins(p: Pool, plan: seq<WorkItem>, e: Entry<WorkItem>, rest: seq<Entry<WorkItem>>, n: nat, counts: map<string, nat>)
    returns (v: Pool)
    requires n < |plan| && e.item == plan[n] && plan[n].job == 0 && Busy(p, plan, Scanning(e), rest, n, counts)
    ensures Busy(v, plan, Scanning(e), rest, n + 1, counts)
  {
    var u := Apply(p, At(0, BeginRun("rds")));
    ReachableStep(p, At(0, BeginRun("rds")));
    assert u.runs == DoneRuns(plan, n) + [SourceRun(Some(0), plan[n].scope, "rds", Running)];
    v := Apply(u, EndRun(n, false));
    ReachableStep(u, EndRun(n, false));
    assert v.runs == DoneRuns(plan, n + 1);
  }

  lemma Settles(p: Pool, plan: seq<WorkItem>, e: Entry<WorkItem>, rest: seq<Entry<WorkItem>>, n: nat, counts: map<string, nat>)
    returns (v: Pool)
    requires n <= |plan| && Busy(p, plan, Scanning(e), rest, n, counts)
    ensures Busy(v, plan, AfterAck(e), rest, n, counts)
  {
    var u := Apply(p, At(0, ScanEnds(true)));
    ReachableStep(p, At(0, ScanEnds(true)));
    assert u.workers == [Worker(Scanned(e, true), rest)];
    v := Apply(u, At(0, Settle));
    ReachableStep(u, At(0, Settle));
  }

  lemma DoneScopes(plan: seq<WorkItem>, n: nat)
    requires n <= |plan|
    ensures ScopesOf(DoneRuns(plan, n), 0) == PlanScopes(plan[..n])
  {
    var runs := DoneRuns(plan, n);
    forall k | 0 <= k < n ensures runs[k].scope in PlanScopes(plan[..n]) && plan[..n][k].scope in ScopesOf(runs, 0) {
      assert plan[..n][k].scope == runs[k].scope;
    }
  }

  /** Without duplicates the job is complete after the last item and not before. */
  lemma CompleteAtTheEnd(plan: seq<WorkItem>, n: nat)
    requires n <= |plan| && DistinctScopes(plan)
    ensures IsJobComplete(DoneRuns(plan, n), 0, |plan|) <==> n == |plan|
  {
    DoneScopes(plan, n);
    PlanScopesCount(plan[..n]);
    assert DistinctScopes(plan[..n]);
  }

  lemma Checks(p: Pool, plan: seq<WorkItem>, e: Entry<WorkItem>, rest: seq<Entry<WorkItem>>, n: nat, counts: map<string, nat>)
    returns (v: Pool)
    requires n <= |plan| && DistinctScopes(plan) && e.item.job == 0 && Busy(p, plan, AfterAck(e), rest, n, counts)
    ensures Busy(v, plan, if n == |plan| then SawComplete(e) else Releasing(e), rest, n, counts)
  {
    CompleteAtTheEnd(plan, n);
    v := Apply(p, At(0, CheckComplete));
    ReachableStep(p, At(0, CheckComplete));
  }

  lemma Releases(p: Pool, plan: seq<WorkItem>, e: Entry<WorkItem>, rest: seq<Entry<WorkItem>>, n: nat) returns (v: Pool)
    requires n <= |plan| && Busy(p, plan, Releasing(e), rest, n, map[e.item.scope.account := 1])
    ensures Busy(v, plan, Idle, rest, n, map[])
  {
    v := Apply(p, At(0, Release));
    ReachableStep(p, At(0, Release));
  }

  lemma Claims(p: Pool, plan: seq<WorkItem>, e: Entry<WorkItem>, rest: seq<Entry<WorkItem>>, n: nat, counts: map<string, nat>)
    returns (v: Pool)
    requires n <= |plan| && e.item.job == 0 && Busy(p, plan, SawComplete(e), rest, n, counts)
    ensures Reachable(v) && 0 in v.plans && v.plans[0] == plan && 0 in v.jobs && v.jobs[0].status == EvalRunning
  {
    v := Apply(p, At(0, ClaimEvaluation));
    ReachableStep(p, At(0, ClaimEvaluation));
  }

  lemma {:induction false} WorksThrough(p: Pool, plan: seq<WorkItem>, batch: seq<Entry<WorkItem>>, n: nat) returns (v: Pool)
    requires n < |plan| && Matches(batch, plan) && DistinctScopes(plan) && Busy(p, plan, Idle, batch[n..], n, map[])
    ensures Reachable(v) && 0 in v.plans && v.plans[0] == plan && 0 in v.jobs && v.jobs[0].status == EvalRunning
    decreases |plan| - n
  {
    var counts := map[plan[n].scope.account := 1];
    var a := Acquires(p, plan, batch, n);
    var b := Begins(a, plan, batch[n], batch[n + 1..], n, counts);
    var c := Settles(b, plan, batch[n], batch[n + 1..], n + 1, counts);
    var d := Checks(c, plan, batch[n], batch[n + 1..], n + 1, counts);
    if n + 1 < |plan| {
      var f := Releases(d, plan, batch[n], batch[n + 1..], n + 1);
      v := WorksThrough(f, plan, batch, n + 1);
    } else {
      v := Claims(d, plan, batch[n], batch[n + 1..], n + 1, counts);
    }
  }

  // ---------------------------------------------------------------- from request to first item

  lemma Delivers(plan: seq<WorkItem>)
    requires forall k :: 0 <= k < |plan| ==> plan[k].job == 0
    ensures Matches(Received(Sent(Empty(|plan|), plan), |plan|, 0.0).1, plan)
  {
    var q := Sent(Empty(|plan|), plan);
    assert q.ready == Stamp(plan, 0);
    assert Promoted(q, 0.0).ready == q.ready;
    DeliverIsFifo(Promoted(q, 0.0), |plan|);
    forall k | 0 <= k < |plan| ensures Stamp(plan, 0)[k].item == plan[k] {
      StampAt(map[], plan, 0, k);
    }
  }

  /** The pool after the request was committed and its items were accepted. */
  lemma Accepts(targets: seq<Target>, plan: seq<WorkItem>) returns (v: Pool)
    requires plan == PlanFor(0, targets)
    ensures Busy(v, plan, Idle, [], 0, map[]) && v.w.q == Sent(Empty(|plan|), plan) && v.w.clock == 0.0
  {
    PlanMatchesTotal(0, targets);
    var s := Start(|plan|, 0.0, 1, 1);
    assert s == Schedule(s, []);
    var a := Apply(s, Commit(targets));
    ReachableStep(s, Commit(targets));
    v := Apply(a, SendItems(0));
    ReachableStep(a, SendItems(0));
  }

  lemma Receives(p: Pool, plan: seq<WorkItem>) returns (v: Pool, batch: seq<Entry<WorkItem>>)
    requires Busy(p, plan, Idle, [], 0, map[]) && p.w.q == Sent(Empty(|plan|), plan) && p.w.clock == 0.0
    requires forall k :: 0 <= k < |plan| ==> plan[k].job == 0
    ensures Matches(batch, plan) && Busy(v, plan, Idle, batch[0..], 0, map[])
  {
    Delivers(plan);
    batch := Received(p.w.q, |plan|, p.w.clock).1;
    v := Apply(p, At(0, Take(|plan|)));
    ReachableStep(p, At(0, Take(|plan|)));
    assert batch[0..] == batch;
    assert v.workers == [Worker(Idle, batch)];
  }

  /** A request can be evaluated, on some schedule for some queue and pool, exactly when it has a
      target and its (account, region) scopes are pairwise distinct. */
  lemma EvaluatedOnSomeScheduleExactlyWhen(targets: seq<Target>)
    ensures (exists p :: Evaluates(p, targets)) <==> targets != [] && DistinctScopes(PlanFor(0, targets))
  {
    var plan := PlanFor(0, targets);
    PlanMatchesTotal(0, targets);
    assert targets != [] ==> plan != [];
    forall p | Evaluates(p, targets) ensures plan != [] && DistinctScopes(plan) {
      EvaluationIsSafe(p, 0);
    }
    if plan != [] && DistinctScopes(plan) {
      var a := Accepts(targets, plan);
      var p, batch := Receives(a, plan);
      var v := WorksThrough(p, plan, batch, 0);
      assert Evaluates(v, targets);
    }
  }
}

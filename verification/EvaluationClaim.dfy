/** When a job becomes complete, who evaluates it, and the jobs that never are
    (`_maybe_run_evaluation` in apps/api/src/constat_api/worker.py and
    apps/api/src/constat_api/repositories/collect_jobs.py). */
module EvaluationClaim {
  import opened Wrappers
  import opened CollectWorker
  import opened CollectProtocol

  ghost predicate NoneRunning(p: Pool, j: nat) {
    forall k :: 0 <= k < |p.runs| && p.runs[k].job == Some(j) ==> p.runs[k].status != Running
  }

  /** In every reachable state a job is complete exactly when none of its runs is running, the
      scopes of its runs are the enqueued ones, and those were pairwise distinct. */
  lemma CompleteExactlyWhen(p: Pool, j: nat)
    requires Reachable(p) && j in p.jobs
    ensures j in p.plans
    ensures IsJobComplete(p.runs, j, p.jobs[j].totalItems) <==>
      NoneRunning(p, j) && ScopesOf(p.runs, j) == PlanScopes(p.plans[j]) && DistinctScopes(p.plans[j])
  {
    ReachableOk(p);
    CoveredExactlyWhen(p, j);
  }

  /** A worker that checks and claims with nothing in between starts the evaluation exactly when
      the job is complete in that sense and nobody claimed it before. */
  lemma EvaluationStartsExactlyWhen(p: Pool, i: nat)
    requires Reachable(p) && i < |p.workers| && p.workers[i].phase.AfterAck?
    ensures var j := p.workers[i].phase.e.item.job;
      var v := Apply(Apply(p, At(i, CheckComplete)), At(i, ClaimEvaluation));
      v.workers[i].phase.Evaluating? <==>
        && j in p.jobs && p.jobs[j].status == NotEvaluated && j in p.plans
        && NoneRunning(p, j) && ScopesOf(p.runs, j) == PlanScopes(p.plans[j]) && DistinctScopes(p.plans[j])
  {
    var j := p.workers[i].phase.e.item.job;
    if j in p.jobs { CompleteExactlyWhen(p, j); }
  }

  /** Whoever evaluates a job won its claim, is the only one evaluating it, and finds the status
      still running: nobody else can write the outcome. */
  lemma EvaluatorOwnsTheClaim(p: Pool, i: nat)
    requires Reachable(p) && i < |p.workers| && p.workers[i].phase.Evaluating?
    ensures var j := p.workers[i].phase.e.item.job;
      && Claim(j, i) in p.claims && ClaimedOnce(p.claims, j)
      && (j in p.jobs ==> p.jobs[j].status == EvalRunning)
      && forall k :: 0 <= k < |p.workers| && k != i && p.workers[k].phase.Evaluating? ==> p.workers[k].phase.e.item.job != j
  {
    ReachableOk(p);
    var j := p.workers[i].phase.e.item.job;
    assert PhaseInv(p.runs, p.plans, p.claims, p.jobs, i, p.workers[i].phase);
    forall k | 0 <= k < |p.workers| && p.workers[k].phase.Evaluating? && p.workers[k].phase.e.item.job == j ensures k == i {
      OneEvaluator(p, i, k);
    }
    var c :| 0 <= c < |p.claims| && p.claims[c] == Claim(j, i);
    assert forall d :: 0 <= d < |p.claims| && p.claims[d].job == j ==> d == c;
  }

  // ---------------------------------------------------------------- duplicate targets

  lemma PlanStays(p: Pool, a: Action, j: nat)
    requires Reachable(p) && j in p.plans
    ensures j in Apply(p, a).plans && Apply(p, a).plans[j] == p.plans[j]
  {
    if !a.At? {
      ReachableOk(p);
      OutsideRows(p, a);
    }
  }

  lemma {:induction false} PlansStay(p: Pool, actions: seq<Action>, j: nat)
    requires Reachable(p) && j in p.plans
    ensures j in Schedule(p, actions).plans && Schedule(p, actions).plans[j] == p.plans[j]
    decreases actions
  {
    if actions != [] {
      ReachableStep(p, actions[0]);
      PlanStays(p, actions[0], j);
      PlansStay(Apply(p, actions[0]), actions[1..], j);
    }
  }

  /** A job whose scopes are not distinct is never evaluated, on no schedule. */
  lemma DuplicateIsNeverEvaluated(p: Pool, actions: seq<Action>, j: nat)
    requires Reachable(p) && j in p.plans && !DistinctScopes(p.plans[j]) && j in Schedule(p, actions).jobs
    ensures Schedule(p, actions).jobs[j].status == NotEvaluated
  {
    PlansStay(p, actions, j);
    ReachableRun(p, actions);
    if Schedule(p, actions).jobs[j].status != NotEvaluated {
      EvaluationIsSafe(Schedule(p, actions), j);
    }
  }

  /** The input: one target listed twice. The job announces two items, both for one scope. */
  lemma TwiceThePlan(t: Target)
    requires t == Target("1", ["eu-west-1"])
    ensures TotalItems([t, t]) == 2 && !DistinctScopes(PlanFor(0, [t, t]))
  {
    var w := WorkItem(0, CollectWorker.Scope("1", "eu-west-1"));
    ItemsOfCount(0, "1", ["eu-west-1"]);
    assert ItemsOf(0, "1", ["eu-west-1"]) == [w];
    assert [t, t][1..] == [t] && [t][1..] == [];
    assert PlanFor(0, [t]) == [w] + PlanFor(0, []) && TotalItems([t]) == 1 + TotalItems([]);
    assert PlanFor(0, [t, t]) == [w] + PlanFor(0, [t]);
    assert PlanFor(0, [t, t]) == [w, w];
    assert PlanFor(0, [t, t])[0].scope == PlanFor(0, [t, t])[1].scope;
  }

  /** Whatever happens after the request is accepted, that job is not evaluated. */
  lemma TargetListedTwice(maxsize: int, clock: real, workers: nat, cap: nat, actions: seq<Action>)
    ensures var t := Target("1", ["eu-west-1"]);
      var v := Schedule(Start(maxsize, clock, workers, cap), [Commit([t, t])] + actions);
      && TotalItems([t, t]) == 2 && !DistinctScopes(PlanFor(0, [t, t]))
      && (0 in v.jobs ==> v.jobs[0].status == NotEvaluated)
  {
    var t := Target("1", ["eu-west-1"]);
    var s := Start(maxsize, clock, workers, cap);
    var p := Apply(s, Commit([t, t]));
    TwiceThePlan(t);
    assert s == Schedule(s, []);
    ReachableStep(s, Commit([t, t]));
    assert ([Commit([t, t])] + actions)[1..] == actions;
    if 0 in Schedule(p, actions).jobs { DuplicateIsNeverEvaluated(p, actions, 0); }
  }
}

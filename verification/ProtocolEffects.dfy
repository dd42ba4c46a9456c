/** What single steps of the collection protocol do to the tables and the queue, said without the
    functions that compute them (apps/api/src/constat_api/routers/aws.py, worker.py and
    repositories/collect_jobs.py). */
module ProtocolEffects {
  import opened Wrappers
  import opened CollectQueue
  import opened QueueEffects
  import opened CollectWorker
  import opened QueueHistory
  import opened CollectProtocol

  // ---------------------------------------------------------------- the request

  predicate AsksFor(t: Target, account: string, region: string) {
    && t.account == account
    && if t.regions == []
       then region in ["eu-west-1", "eu-west-2", "eu-west-3", "eu-central-1", "us-east-1", "us-east-2", "us-west-2"]
       else region in t.regions
  }

  /** The items are exactly the (account, region) pairs the targets ask for, all for this job; a
      target without regions asks for the seven default ones. */
  lemma {:induction false} PlanIsExact(job: nat, targets: seq<Target>, item: WorkItem)
    ensures item in PlanFor(job, targets) <==>
      item.job == job && exists k :: 0 <= k < |targets| && AsksFor(targets[k], item.scope.account, item.scope.region)
  {
    if targets != [] {
      var t := targets[0];
      PlanIsExact(job, targets[1..], item);
      ItemsAreExact(job, t.account, RegionsOf(t), item);
      if exists k :: 0 <= k < |targets| && AsksFor(targets[k], item.scope.account, item.scope.region) {
        var k :| 0 <= k < |targets| && AsksFor(targets[k], item.scope.account, item.scope.region);
        if k > 0 { assert targets[1..][k - 1] == targets[k]; }
      }
      if exists k :: 0 <= k < |targets[1..]| && AsksFor(targets[1..][k], item.scope.account, item.scope.region) {
        var k :| 0 <= k < |targets[1..]| && AsksFor(targets[1..][k], item.scope.account, item.scope.region);
        assert targets[k + 1] == targets[1..][k];
      }
    }
  }

  lemma {:induction false} ItemsAreExact(job: nat, account: string, regions: seq<string>, item: WorkItem)
    ensures item in ItemsOf(job, account, regions) <==> item.job == job && item.scope.account == account && item.scope.region in regions
  {
    if regions != [] {
      ItemsAreExact(job, account, regions[1..], item);
    }
  }

  /** The plan lists the items target by target and region by region: one more target adds its
      items, in the order of its regions, behind the others. */
  lemma {:induction false} PlanGrowsInOrder(job: nat, targets: seq<Target>, t: Target)
    ensures var a, b := PlanFor(job, targets), PlanFor(job, targets + [t]);
      var regions := if t.regions == []
        then ["eu-west-1", "eu-west-2", "eu-west-3", "eu-central-1", "us-east-1", "us-east-2", "us-west-2"] else t.regions;
      && |b| == |a| + |regions| && b[..|a|] == a
      && forall k :: 0 <= k < |regions| ==> b[|a| + k] == WorkItem(job, CollectWorker.Scope(t.account, regions[k]))
  {
    var more := targets + [t];
    ItemsOfCount(job, more[0].account, RegionsOf(more[0]));
    if targets == [] {
      assert more[1..] == [];
    } else {
      PlanGrowsInOrder(job, targets[1..], t);
      assert more[1..] == targets[1..] + [t];
    }
  }

  /** A commit adds one job row, with the number of items and nothing evaluated, and enqueues
      nothing yet. */
  lemma CommitAddsARow(p: Pool, targets: seq<Target>)
    ensures var v, j := Apply(p, Commit(targets)), p.nextJob;
      && v.jobs.Keys == p.jobs.Keys + {j} && v.jobs[j] == Job(|PlanFor(j, targets)|, false, NotEvaluated)
      && v.w == p.w && v.runs == p.runs && v.workers == p.workers && j in v.outbox
      && forall x :: x in p.jobs && x != j ==> v.jobs[x] == p.jobs[x]
  {
    PlanMatchesTotal(p.nextJob, targets);
  }

  /** A send that does not fit changes nothing in the queue and marks the job row, which stays;
      one that fits appends every item and marks nothing. It is tried once. */
  lemma SendAllOrMark(p: Pool, j: nat)
    requires j in p.outbox && j in p.plans
    ensures var v, items := Apply(p, SendItems(j)), p.plans[j];
      var full := items != [] && |p.w.q.ready| + |p.w.q.delayed| + |p.w.q.inFlight| + |items| > p.w.q.maxsize;
      && v.jobs.Keys == p.jobs.Keys && j !in v.outbox && (forall x :: x in p.jobs && x != j ==> v.jobs[x] == p.jobs[x])
      && (full ==> v.w == p.w)
      && (j in p.jobs ==>
            v.jobs[j].totalItems == p.jobs[j].totalItems && v.jobs[j].status == p.jobs[j].status
            && (v.jobs[j].enqueueFailed <==> full || p.jobs[j].enqueueFailed))
      && (!full ==>
            && |v.w.q.ready| == |p.w.q.ready| + |items| && v.w.q.ready[..|p.w.q.ready|] == p.w.q.ready
            && forall k :: 0 <= k < |items| ==> v.w.q.ready[|p.w.q.ready| + k] == Entry(p.w.q.next + k, items[k], 0))
  {
    if !Refuses(p.w.q, p.plans[j]) { SendAppends(p.w.q, p.plans[j]); }
  }

  /** Deleting a job takes its row away and nothing else. */
  lemma DeleteTakesOneRow(p: Pool, j: nat)
    ensures var v := Apply(p, DeleteJob(j));
      && (forall x :: x in v.jobs <==> x in p.jobs && x != j) && (forall x :: x in v.jobs ==> v.jobs[x] == p.jobs[x])
      && v.w == p.w && v.runs == p.runs && v.workers == p.workers && v.outbox == p.outbox && v.counts == p.counts
  {
  }

  /** Time only moves the clock, and never back. */
  lemma TimePasses(p: Pool, seconds: real)
    ensures var v := Apply(p, Elapse(seconds));
      && v.w.q == p.w.q && v.w.book == p.w.book && v.jobs == p.jobs && v.runs == p.runs && v.workers == p.workers
      && v.w.clock == if seconds < 0.0 then p.w.clock else p.w.clock + seconds
  {
  }

  // ---------------------------------------------------------------- runs and outcomes

  ghost predicate RunningFor(runs: seq<SourceRun>, scope: Scope, rt: string) {
    exists k :: 0 <= k < |runs| && runs[k].status == Running && runs[k].scope == scope && runs[k].resourceType == rt
  }

  /** A scan begins one run, for the item's job and scope, unless one of that scope and type is
      running. */
  lemma ScanBeginsOneRun(p: Pool, i: nat, rt: string)
    requires i < |p.workers| && p.workers[i].phase.Scanning?
    ensures var v, item := Apply(p, At(i, BeginRun(rt))), p.workers[i].phase.e.item;
      v.runs == if RunningFor(p.runs, item.scope, rt) then p.runs else p.runs + [SourceRun(Some(item.job), item.scope, rt, Running)]
  {
  }

  /** Ending a run sets its status, and it is not running any more; no other run changes. */
  lemma EndedRunIsOver(p: Pool, k: nat, aborted: bool)
    requires k < |p.runs|
    ensures var v := Apply(p, EndRun(k, aborted));
      && |v.runs| == |p.runs| && v.runs[k].status != Running
      && v.runs[k].job == p.runs[k].job && v.runs[k].scope == p.runs[k].scope && v.runs[k].resourceType == p.runs[k].resourceType
      && (forall m :: 0 <= m < |p.runs| && m != k ==> v.runs[m] == p.runs[m])
      && v.w == p.w && v.jobs == p.jobs && v.workers == p.workers
  {
  }

  ghost predicate OneScanEach(runs: seq<SourceRun>) {
    forall k, m :: 0 <= k < m < |runs| && runs[k].status == Running && runs[m].status == Running ==>
      runs[k].scope != runs[m].scope || runs[k].resourceType != runs[m].resourceType
  }

  lemma StepKeepsOneScanEach(p: Pool, a: Action)
    requires OneScanEach(p.runs)
    ensures OneScanEach(Apply(p, a).runs)
  {
    if a.At? && a.i < |p.workers| && Turn(p.workers[a.i], a.move) && a.move.BeginRun? {
      ScanBeginsOneRun(p, a.i, a.move.resourceType);
    }
  }

  /** On every schedule at most one scan of a scope and type is running. */
  lemma {:induction false} OneScanEachAlways(p: Pool, actions: seq<Action>)
    requires OneScanEach(p.runs)
    ensures OneScanEach(Schedule(p, actions).runs)
    decreases actions
  {
    if actions != [] {
      StepKeepsOneScanEach(p, actions[0]);
      OneScanEachAlways(Apply(p, actions[0]), actions[1..]);
    }
  }

  /** The evaluator records success or failure as it found it, and no other row changes. */
  lemma OutcomeIsRecorded(p: Pool, i: nat, success: bool)
    requires i < |p.workers| && p.workers[i].phase.Evaluating?
    ensures var v, j := Apply(p, At(i, FinishEvaluation(success))), p.workers[i].phase.e.item.job;
      && v.jobs.Keys == p.jobs.Keys && (forall x :: x in p.jobs && x != j ==> v.jobs[x] == p.jobs[x])
      && (j in p.jobs ==> v.jobs[j] == p.jobs[j].(status := if success then EvalSuccess else EvalFailed))
  {
  }
}

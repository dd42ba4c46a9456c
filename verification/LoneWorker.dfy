/** The drain loop and the interleaved protocol agree: when one worker runs alone, its moves on
    each item compose to what one pass of the loop does with it
    (`drain_once` in apps/api/src/constat_api/worker.py). */
module LoneWorker {
  import opened CollectQueue
  import opened CollectWorker
  import opened QueueHistory
  import opened CollectProtocol
  import opened QueueEffects
  import opened WorkerFates

  /** What happens while the worker scans one item, how the scan ends, and how the evaluation
      would end if this item's ack starts it. */
  datatype Work = Work(during: seq<Action>, scan: Scan, success: bool)

  /** Source runs begin and end, and time passes. */
  ghost predicate Scans(actions: seq<Action>, i: nat) {
    forall k :: 0 <= k < |actions| ==>
      actions[k].Elapse? || actions[k].EndRun? || (actions[k].At? && actions[k].i == i && actions[k].move.BeginRun?)
  }

  function PhaseOf(p: Pool, i: nat): Phase { if i < |p.workers| then p.workers[i].phase else Idle }

  /** The moves after a successful ack: check, claim, evaluate, as far as they go. */
  function Evaluates(p: Pool, i: nat, success: bool): Pool {
    var checked := Apply(p, At(i, CheckComplete));
    if !PhaseOf(checked, i).SawComplete? then checked
    else
      var claimed := Apply(checked, At(i, ClaimEvaluation));
      if PhaseOf(claimed, i).Evaluating? then Apply(claimed, At(i, FinishEvaluation(success))) else claimed
  }

  /** The moves with the slot held, from the scan to the release. */
  function Processes(p: Pool, i: nat, work: Work): Pool {
    var settled := Apply(Apply(Schedule(p, work.during), At(i, ScanEnds(work.scan == Clean))), At(i, Settle));
    Apply(if work.scan == Clean then Evaluates(settled, i, work.success) else settled, At(i, Release))
  }

  /** All the moves on the next item of the batch. */
  function HandlesItem(p: Pool, i: nat, work: Work): Pool {
    var looked := Apply(p, At(i, LookUp));
    if PhaseOf(looked, i).Orphan? then Apply(looked, At(i, DropOrphan))
    else
      var asked := Apply(looked, At(i, Acquire));
      if PhaseOf(asked, i).Busy? then Apply(asked, At(i, Defer)) else Processes(asked, i, work)
  }

  ghost predicate HandlesAt(pools: nat -> Pool, i: nat, work: nat -> Work, k: nat) {
    pools(k + 1) == HandlesItem(pools(k), i, work(k)) && Scans(work(k).during, i)
  }

  /** `pools(k)` is the pool before item `k`: the worker handles `n` items, one after the other. */
  ghost predicate Handles(pools: nat -> Pool, i: nat, work: nat -> Work, n: nat) {
    forall k: nat :: k < n ==> HandlesAt(pools, i, work, k)
  }

  // ---------------------------------------------------------------- one item

  /** The same pool except for the runs, the claims and how far the job rows and the clock are. */
  ghost predicate SameWork(p: Pool, v: Pool) {
    && v.workers == p.workers && v.counts == p.counts && v.cap == p.cap
    && v.jobs.Keys == p.jobs.Keys && v.w.q == p.w.q
  }

  lemma {:induction false} ScanningMovesNothing(p: Pool, i: nat, during: seq<Action>)
    requires i < |p.workers| && p.workers[i].phase.Scanning? && Scans(during, i)
    ensures SameWork(p, Schedule(p, during))
    decreases during
  {
    if during != [] {
      var v := Apply(p, during[0]);
      assert v.workers == p.workers;
      ScanningMovesNothing(v, i, during[1..]);
    }
  }

  /** Worker `i` went to phase `x` and neither queue nor limiter nor the set of jobs changed. */
  ghost predicate OnlyMoved(p: Pool, v: Pool, i: nat, x: Worker)
    requires i < |p.workers|
  {
    v.workers == p.workers[i := x] && v.counts == p.counts && v.cap == p.cap && v.jobs.Keys == p.jobs.Keys && v.w == p.w
  }

  lemma CheckMoves(p: Pool, i: nat, e: Entry<WorkItem>, rest: seq<Entry<WorkItem>>)
    requires i < |p.workers| && p.workers[i] == Worker(AfterAck(e), rest)
    ensures var v := Apply(p, At(i, CheckComplete));
      OnlyMoved(p, v, i, Worker(SawComplete(e), rest)) || OnlyMoved(p, v, i, Worker(Releasing(e), rest))
  {
  }

  lemma ClaimMoves(p: Pool, i: nat, e: Entry<WorkItem>, rest: seq<Entry<WorkItem>>)
    requires i < |p.workers| && p.workers[i] == Worker(SawComplete(e), rest)
    ensures var v := Apply(p, At(i, ClaimEvaluation));
      OnlyMoved(p, v, i, Worker(Evaluating(e), rest)) || OnlyMoved(p, v, i, Worker(Releasing(e), rest))
  {
  }

  lemma FinishMoves(p: Pool, i: nat, success: bool, e: Entry<WorkItem>, rest: seq<Entry<WorkItem>>)
    requires i < |p.workers| && p.workers[i] == Worker(Evaluating(e), rest)
    ensures OnlyMoved(p, Apply(p, At(i, FinishEvaluation(success))), i, Worker(Releasing(e), rest))
  {
  }

  /** The evaluation chain leaves the worker at the release, and the queue and the limiter alone. */
  lemma EvaluatingMovesNothing(p: Pool, i: nat, success: bool, e: Entry<WorkItem>, rest: seq<Entry<WorkItem>>)
    requires i < |p.workers| && p.workers[i] == Worker(AfterAck(e), rest)
    ensures OnlyMoved(p, Evaluates(p, i, success), i, Worker(Releasing(e), rest))
  {
    var checked := Apply(p, At(i, CheckComplete));
    CheckMoves(p, i, e, rest);
    if checked.workers[i].phase.SawComplete? {
      var claimed := Apply(checked, At(i, ClaimEvaluation));
      ClaimMoves(checked, i, e, rest);
      if claimed.workers[i].phase.Evaluating? { FinishMoves(claimed, i, success, e, rest); }
    }
  }

  lemma SettlesScanned(p: Pool, i: nat, work: Work, e: Entry<WorkItem>, rest: seq<Entry<WorkItem>>)
    requires i < |p.workers| && p.workers[i] == Worker(Scanning(e), rest) && Scans(work.during, i)
    ensures var v := Processes(p, i, work);
      && v.workers == p.workers[i := Worker(Idle, rest)]
      && v.counts == Released(p.counts, e.item.scope.account) && v.cap == p.cap && v.jobs.Keys == p.jobs.Keys
      && v.w.q == Settled(p.w.q, e, if work.scan == Clean then Success else Failed, v.w.clock)
  {
    ScanningMovesNothing(p, i, work.during);
    var scanned := Schedule(p, work.during);
    var ended := Apply(scanned, At(i, ScanEnds(work.scan == Clean)));
    var settled := Apply(ended, At(i, Settle));
    assert ended.workers[i] == Worker(Scanned(e, work.scan == Clean), rest);
    if work.scan == Clean {
      AckIsTotal(ended.w, e.receipt);
      EvaluatingMovesNothing(settled, i, work.success, e, rest);
    } else {
      NackIsTotal(ended.w, e.receipt, BackoffSeconds(e.attempts));
    }
  }

  lemma AckIsTotal(w: World<WorkItem>, r: nat)
    ensures Step(w, Ack(r)).q == Acked(w.q, r) && Step(w, Ack(r)).clock == w.clock
  {
    if r !in w.q.inFlight { assert w.q.inFlight - {r} == w.q.inFlight; }
  }

  lemma NackIsTotal(w: World<WorkItem>, r: nat, delay: real)
    ensures Step(w, Nack(r, delay)).q == Nacked(w.q, r, delay, w.clock) && Step(w, Nack(r, delay)).clock == w.clock
  {
  }

  /** Worker `i` is idle again with `rest` left, and neither limiter nor the set of jobs changed. */
  ghost predicate Returned(p: Pool, v: Pool, i: nat, rest: seq<Entry<WorkItem>>)
    requires i < |p.workers|
  {
    v.workers == p.workers[i := Worker(Idle, rest)] && v.counts == p.counts && v.cap == p.cap && v.jobs.Keys == p.jobs.Keys
  }

  lemma OrphanIsDropped(p: Pool, i: nat, work: Work, e: Entry<WorkItem>, rest: seq<Entry<WorkItem>>)
    requires i < |p.workers| && p.workers[i] == Worker(Idle, [e] + rest) && e.item.job !in p.jobs
    ensures var v := HandlesItem(p, i, work);
      v.w.q == Settled(p.w.q, e, Dropped, v.w.clock) && Returned(p, v, i, rest)
  {
    AckIsTotal(p.w, e.receipt);
  }

  lemma BusyIsDeferred(p: Pool, i: nat, work: Work, e: Entry<WorkItem>, rest: seq<Entry<WorkItem>>)
    requires i < |p.workers| && p.workers[i] == Worker(Idle, [e] + rest) && e.item.job in p.jobs
    requires !CanAcquire(p.counts, p.cap, e.item.scope.account)
    ensures var v := HandlesItem(p, i, work);
      v.w.q == Settled(p.w.q, e, Deferred, v.w.clock) && Returned(p, v, i, rest)
  {
    NackIsTotal(p.w, e.receipt, BUSY_ACCOUNT_DELAY_SECONDS);
  }

  lemma ScannedIsSettled(p: Pool, i: nat, work: Work, e: Entry<WorkItem>, rest: seq<Entry<WorkItem>>)
    requires i < |p.workers| && p.workers[i] == Worker(Idle, [e] + rest) && e.item.job in p.jobs
    requires WithinCap(p.counts, p.cap) && CanAcquire(p.counts, p.cap, e.item.scope.account) && Scans(work.during, i)
    ensures var v := HandlesItem(p, i, work);
      v.w.q == Settled(p.w.q, e, if work.scan == Clean then Success else Failed, v.w.clock) && Returned(p, v, i, rest)
  {
    var asked := Apply(Apply(p, At(i, LookUp)), At(i, Acquire));
    ReleaseUndoesAcquire(p.counts, p.cap, e.item.scope.account);
    assert asked.workers == p.workers[i := Worker(Scanning(e), rest)];
    SettlesScanned(asked, i, work, e, rest);
  }

  /** The moves of a worker on its next item, whatever the evaluation chain does, settle that item
      in the queue as its status says, give back the slot, and touch no other worker. */
  lemma ItemIsSettled(p: Pool, i: nat, work: Work)
    requires WithinCap(p.counts, p.cap) && i < |p.workers| && p.workers[i].phase.Idle? && p.workers[i].rest != []
    requires Scans(work.during, i)
    ensures var e := p.workers[i].rest[0];
      var status := StatusOf(e.item.job in p.jobs, CanAcquire(p.counts, p.cap, e.item.scope.account), work.scan);
      var v := HandlesItem(p, i, work);
      v.w.q == Settled(p.w.q, e, status, v.w.clock) && Returned(p, v, i, p.workers[i].rest[1..])
  {
    var e, rest := p.workers[i].rest[0], p.workers[i].rest[1..];
    assert p.workers[i].rest == [e] + rest;
    if e.item.job !in p.jobs {
      OrphanIsDropped(p, i, work, e, rest);
    } else if !CanAcquire(p.counts, p.cap, e.item.scope.account) {
      BusyIsDeferred(p, i, work, e, rest);
    } else {
      ScannedIsSettled(p, i, work, e, rest);
    }
  }

  /** In a reachable state these moves forget the item when its job row is missing or its scan is
      clean, and otherwise park it once with its attempts, for five seconds when its account was
      at the cap and after a failed scan for thirty per delivery, at most three hundred. */
  lemma ItemMeetsItsFate(p: Pool, i: nat, work: Work)
    requires Reachable(p) && i < |p.workers| && p.workers[i].phase.Idle? && p.workers[i].rest != []
    requires Scans(work.during, i)
    ensures var e, v := p.workers[i].rest[0], HandlesItem(p, i, work);
      var busy := CountOf(p.counts, e.item.scope.account) >= p.cap;
      && (e.item.job !in p.jobs ==> Nowhere(v.w.q, e.receipt))
      && (e.item.job in p.jobs && busy ==> ParkedOnce(v.w.q, e, v.w.clock + 5.0))
      && (e.item.job in p.jobs && !busy && work.scan == Clean ==> Nowhere(v.w.q, e.receipt))
      && (e.item.job in p.jobs && !busy && work.scan != Clean ==> ParkedOnce(v.w.q, e, v.w.clock + SecondsToWait(e.attempts)))
  {
    var e := p.workers[i].rest[0];
    ReachableOk(p);
    ReachableHoldTrue(p);
    assert HoldsTrue(p.w.q, p.workers[i]);
    FlightIsApart(p.w, e.receipt);
    ItemIsSettled(p, i, work);
    SettledMeetsItsFate(p.w.q, e,
      StatusOf(e.item.job in p.jobs, CanAcquire(p.counts, p.cap, e.item.scope.account), work.scan), HandlesItem(p, i, work).w.clock);
  }

  // ---------------------------------------------------------------- one pass

  /** What the pass reads, taken from the pool: jobs and limiter at its start, the scans it makes
      and the clock when each item was settled. */
  ghost function CircumstancesOf(pools: nat -> Pool, work: nat -> Work): Circumstances {
    Circumstances(pools(0).jobs.Keys, pools(0).counts, pools(0).cap, (k: nat) => work(k).scan, (k: nat) => pools(k + 1).w.clock)
  }

  lemma NextItemIsSettled(p: Pool, u: Pool, i: nat, work: Work, batch: seq<Entry<WorkItem>>, n: nat)
    requires WithinCap(p.counts, p.cap) && i < |p.workers| && n < |batch| && Returned(p, u, i, batch[n..])
    requires Scans(work.during, i)
    ensures var v, e := HandlesItem(u, i, work), batch[n];
      && Returned(p, v, i, batch[n + 1..])
      && v.w.q == Settled(u.w.q, e,
           StatusOf(e.item.job in p.jobs.Keys, CanAcquire(p.counts, p.cap, e.item.scope.account), work.scan), v.w.clock)
  {
    ItemIsSettled(u, i, work);
    assert batch[n..][1..] == batch[n + 1..];
  }

  ghost predicate QueueStepAt(pools: nat -> Pool, batch: seq<Entry<WorkItem>>, c: Circumstances, k: nat)
    requires k < |batch|
  {
    pools(k + 1).w.q == Settled(pools(k).w.q, batch[k], StatusAt(batch[k], c, k), c.at(k))
  }

  /** One item after another, settled as its status says, is what the drain pass does. */
  lemma {:induction false} StepsDrain(pools: nat -> Pool, batch: seq<Entry<WorkItem>>, c: Circumstances, n: nat)
    requires n <= |batch| && forall k: nat :: k < n ==> QueueStepAt(pools, batch, c, k)
    ensures pools(n).w.q == Drained(pools(0).w.q, batch, c, n)
  {
    if n > 0 {
      StepsDrain(pools, batch, c, n - 1);
      assert QueueStepAt(pools, batch, c, n - 1);
    }
  }

  lemma NextReturns(pools: nat -> Pool, i: nat, work: nat -> Work, batch: seq<Entry<WorkItem>>, k: nat)
    requires HandlesAt(pools, i, work, k) && k < |batch| && i < |pools(0).workers|
    requires WithinCap(pools(0).counts, pools(0).cap) && Returned(pools(0), pools(k), i, batch[k..])
    ensures Returned(pools(0), pools(k + 1), i, batch[k + 1..])
    ensures QueueStepAt(pools, batch, CircumstancesOf(pools, work), k)
  {
    NextItemIsSettled(pools(0), pools(k), i, work(k), batch, k);
  }

  lemma {:induction false} BatchIsDrained(pools: nat -> Pool, i: nat, work: nat -> Work, batch: seq<Entry<WorkItem>>, n: nat)
    requires Handles(pools, i, work, n) && n <= |batch|
    requires WithinCap(pools(0).counts, pools(0).cap) && i < |pools(0).workers| && pools(0).workers[i] == Worker(Idle, batch)
    ensures Returned(pools(0), pools(n), i, batch[n..])
    ensures forall k: nat :: k < n ==> QueueStepAt(pools, batch, CircumstancesOf(pools, work), k)
  {
    if n > 0 {
      BatchIsDrained(pools, i, work, batch, n - 1);
      NextReturns(pools, i, work, batch, n - 1);
    } else {
      assert batch[0..] == batch;
    }
  }

  lemma TakeMoves(p: Pool, i: nat, maxItems: int)
    requires i < |p.workers| && p.workers[i] == Worker(Idle, [])
    ensures var (q, batch) := Received(p.w.q, maxItems, p.w.clock);
      var v := Apply(p, At(i, Take(maxItems)));
      v.w.q == q && Returned(p, v, i, batch)
  {
  }

  /** A receive and then all its items, by one worker with nobody else moving, leaves the queue
      and the limiter as the drain pass does. */
  lemma LonePassIsADrain(p: Pool, i: nat, maxItems: int, pools: nat -> Pool, work: nat -> Work, batch: seq<Entry<WorkItem>>)
    requires WithinCap(p.counts, p.cap) && i < |p.workers| && p.workers[i] == Worker(Idle, [])
    requires batch == Received(p.w.q, maxItems, p.w.clock).1
    requires pools(0) == Apply(p, At(i, Take(maxItems))) && Handles(pools, i, work, |batch|)
    ensures var v := pools(|batch|);
      && v.w.q == Drained(Received(p.w.q, maxItems, p.w.clock).0, batch, CircumstancesOf(pools, work), |batch|)
      && v.workers == p.workers && v.counts == p.counts && v.jobs.Keys == p.jobs.Keys
  {
    TakeMoves(p, i, maxItems);
    BatchIsDrained(pools, i, work, batch, |batch|);
    StepsDrain(pools, batch, CircumstancesOf(pools, work), |batch|);
    assert batch[|batch|..] == [];
  }
}

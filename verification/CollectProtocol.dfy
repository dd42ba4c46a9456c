/** The asynchronous collection protocol as an interleaved transition system: any number of
    workers, one atomic step per lock-protected queue or limiter call and per database call.
    Sources: apps/api/src/constat_api/worker.py, collect_queue.py, routers/aws.py and
    repositories/collect_jobs.py. */
module CollectProtocol {
  import opened Wrappers
  import opened CollectQueue
  import opened CollectWorker
  import opened QueueHistory

  const DEFAULT_REGIONS: seq<string> :=
    ["eu-west-1", "eu-west-2", "eu-west-3", "eu-central-1", "us-east-1", "us-east-2", "us-west-2"]

  // ---------------------------------------------------------------- accepting a request

  datatype Target = Target(account: string, regions: seq<string>)

  function RegionsOf(t: Target): seq<string> { if t.regions == [] then DEFAULT_REGIONS else t.regions }

  function ItemsOf(job: nat, account: string, regions: seq<string>): seq<WorkItem> {
    if regions == [] then []
    else [WorkItem(job, CollectWorker.Scope(account, regions[0]))] + ItemsOf(job, account, regions[1..])
  }

  /** One work item per (target, region). */
  function PlanFor(job: nat, targets: seq<Target>): seq<WorkItem> {
    if targets == [] then []
    else ItemsOf(job, targets[0].account, RegionsOf(targets[0])) + PlanFor(job, targets[1..])
  }

  /** The `total_items` written on the job row, computed before the items are. */
  function TotalItems(targets: seq<Target>): nat {
    if targets == [] then 0 else |RegionsOf(targets[0])| + TotalItems(targets[1..])
  }

  lemma {:induction false} ItemsOfCount(job: nat, account: string, regions: seq<string>)
    ensures |ItemsOf(job, account, regions)| == |regions|
    ensures forall i :: 0 <= i < |regions| ==>
      ItemsOf(job, account, regions)[i] == WorkItem(job, CollectWorker.Scope(account, regions[i]))
  {
    if regions != [] {
      ItemsOfCount(job, account, regions[1..]);
    }
  }

  /** The row announces exactly as many items as are enqueued, all of them for this job. */
  lemma {:induction false} PlanMatchesTotal(job: nat, targets: seq<Target>)
    ensures |PlanFor(job, targets)| == TotalItems(targets)
    ensures forall i :: 0 <= i < |PlanFor(job, targets)| ==> PlanFor(job, targets)[i].job == job
  {
    if targets != [] {
      ItemsOfCount(job, targets[0].account, RegionsOf(targets[0]));
      PlanMatchesTotal(job, targets[1..]);
    }
  }

  // ---------------------------------------------------------------- the state

  datatype EvalStatus = NotEvaluated | EvalRunning | EvalSuccess | EvalFailed

  datatype Job = Job(totalItems: nat, enqueueFailed: bool, status: EvalStatus)

  datatype RunStatus = Running | Done | Aborted

  datatype SourceRun = SourceRun(job: Option<nat>, scope: Scope, resourceType: string, status: RunStatus)

  /** Where a worker is in `drain_once`. The item is in flight up to `Scanned`; the limiter
      slot is held from `Scanning` to `Releasing`. */
  datatype Phase =
    | Idle
    | Found(e: Entry<WorkItem>)
    | Orphan(e: Entry<WorkItem>)
    | Busy(e: Entry<WorkItem>)
    | Scanning(e: Entry<WorkItem>)
    | Scanned(e: Entry<WorkItem>, ok: bool)
    | AfterAck(e: Entry<WorkItem>)
    | SawComplete(e: Entry<WorkItem>)
    | Evaluating(e: Entry<WorkItem>)
    | Releasing(e: Entry<WorkItem>)

  /** `rest` is the part of the received batch not looked at yet. */
  datatype Worker = Worker(phase: Phase, rest: seq<Entry<WorkItem>>)

  datatype Claim = Claim(job: nat, worker: nat)

  /** `plans`, `claims` and `lost` are history: the items of every job ever committed, every
      claim that won, and the receipts of batches cut short by a raising job lookup. */
  datatype Pool = Pool(
    w: World<WorkItem>,
    workers: seq<Worker>,
    cap: nat,
    counts: map<string, nat>,
    jobs: map<nat, Job>,
    outbox: set<nat>,
    runs: seq<SourceRun>,
    nextJob: nat,
    plans: map<nat, seq<WorkItem>>,
    claims: seq<Claim>,
    lost: set<nat>)

  function Start(maxsize: int, clock: real, workers: nat, cap: nat): Pool {
    Pool(Fresh(maxsize, clock), seq(workers, _ => Worker(Idle, [])), cap, map[], map[], {}, [], 0, map[], [], {})
  }

  function ScopesOf(runs: seq<SourceRun>, job: nat): set<Scope> {
    set k | 0 <= k < |runs| && runs[k].job == Some(job) :: runs[k].scope
  }

  function PlanScopes(plan: seq<WorkItem>): set<Scope> {
    set k | 0 <= k < |plan| :: plan[k].scope
  }

  predicate IsJobComplete(runs: seq<SourceRun>, job: nat, totalItems: nat) {
    && (forall k :: 0 <= k < |runs| && runs[k].job == Some(job) ==> runs[k].status != Running)
    && |ScopesOf(runs, job)| >= totalItems
  }

  /** The partial unique index: one running run per scope and type. */
  predicate ScanActive(runs: seq<SourceRun>, scope: Scope, resourceType: string) {
    exists k :: 0 <= k < |runs| && runs[k].scope == scope && runs[k].resourceType == resourceType
      && runs[k].status == Running
  }

  // ---------------------------------------------------------------- the steps

  /** What one worker does next. */
  datatype Move =
    | Take(maxItems: int)
    | LookUp
    | LookUpRaises
    | DropOrphan
    | Acquire
    | Defer
    | BeginRun(resourceType: string)
    | ScanEnds(ok: bool)
    | Settle
    | CheckComplete
    | ClaimEvaluation
    | FinishEvaluation(success: bool)
    | ChainRaises
    | Release

  datatype Action =
    | Commit(targets: seq<Target>)
    | SendItems(job: nat)
    | DeleteJob(job: nat)
    | Elapse(seconds: real)
    | ForeignRun(scope: Scope, resourceType: string)
    | EndRun(k: nat, aborted: bool)
    | At(i: nat, move: Move)

  /** The control point at which a worker makes this move. */
  predicate Turn(x: Worker, m: Move) {
    match m
    case Take(_) => x == Worker(Idle, [])
    case LookUp => x.phase.Idle? && x.rest != []
    case LookUpRaises => x.phase.Idle? && x.rest != []
    case DropOrphan => x.phase.Orphan?
    case Acquire => x.phase.Found?
    case Defer => x.phase.Busy?
    case BeginRun(_) => x.phase.Scanning?
    case ScanEnds(_) => x.phase.Scanning?
    case Settle => x.phase.Scanned?
    case CheckComplete => x.phase.AfterAck?
    case ClaimEvaluation => x.phase.SawComplete?
    case FinishEvaluation(_) => x.phase.Evaluating?
    case ChainRaises => PastAck(x.phase)
    case Release => x.phase.Releasing?
  }

  predicate ClaimWins(p: Pool, j: nat) { j in p.jobs && p.jobs[j].status == NotEvaluated }

  function NextPhase(p: Pool, x: Worker, m: Move): Phase
    requires Turn(x, m)
  {
    match m
    case Take(_) => Idle
    case LookUp => if x.rest[0].item.job in p.jobs then Found(x.rest[0]) else Orphan(x.rest[0])
    case LookUpRaises => Idle
    case DropOrphan => Idle
    case Acquire =>
      if CanAcquire(p.counts, p.cap, x.phase.e.item.scope.account) then Scanning(x.phase.e) else Busy(x.phase.e)
    case Defer => Idle
    case BeginRun(_) => x.phase
    case ScanEnds(ok) => Scanned(x.phase.e, ok)
    case Settle => if x.phase.ok then AfterAck(x.phase.e) else Releasing(x.phase.e)
    case CheckComplete =>
      var j := x.phase.e.item.job;
      if j in p.jobs && IsJobComplete(p.runs, j, p.jobs[j].totalItems) then SawComplete(x.phase.e)
      else Releasing(x.phase.e)
    case ClaimEvaluation => if ClaimWins(p, x.phase.e.item.job) then Evaluating(x.phase.e) else Releasing(x.phase.e)
    case FinishEvaluation(_) => Releasing(x.phase.e)
    case ChainRaises => Releasing(x.phase.e)
    case Release => Idle
  }

  function NextRest(p: Pool, x: Worker, m: Move): seq<Entry<WorkItem>>
    requires Turn(x, m)
  {
    match m
    case Take(n) => Received(p.w.q, n, p.w.clock).1
    case LookUp => x.rest[1..]
    case LookUpRaises => []
    case _ => x.rest
  }

  /** The queue call the move makes, if any. A raising chain nacks what it already acked. */
  function CallOf(x: Worker, m: Move): Option<Op<WorkItem>>
    requires Turn(x, m)
  {
    match m
    case Take(n) => Some(Receive(n))
    case DropOrphan => Some(Ack(x.phase.e.receipt))
    case Defer => Some(Nack(x.phase.e.receipt, BUSY_ACCOUNT_DELAY_SECONDS))
    case Settle =>
      if x.phase.ok then Some(Ack(x.phase.e.receipt))
      else Some(Nack(x.phase.e.receipt, BackoffSeconds(x.phase.e.attempts)))
    case ChainRaises => Some(Nack(x.phase.e.receipt, BackoffSeconds(x.phase.e.attempts)))
    case _ => None
  }

  function NextWorld(w: World<WorkItem>, call: Option<Op<WorkItem>>): World<WorkItem> {
    match call
    case None => w
    case Some(op) => Step(w, op)
  }

  function NextCounts(p: Pool, x: Worker, m: Move): map<string, nat>
    requires Turn(x, m)
  {
    match m
    case Acquire => Acquired(p.counts, p.cap, x.phase.e.item.scope.account)
    case Release => Released(p.counts, x.phase.e.item.scope.account)
    case _ => p.counts
  }

  function SetStatus(jobs: map<nat, Job>, j: nat, status: EvalStatus): map<nat, Job> {
    if j in jobs then jobs[j := jobs[j].(status := status)] else jobs
  }

  function NextJobs(p: Pool, x: Worker, m: Move): map<nat, Job>
    requires Turn(x, m)
  {
    match m
    case ClaimEvaluation =>
      if ClaimWins(p, x.phase.e.item.job) then SetStatus(p.jobs, x.phase.e.item.job, EvalRunning) else p.jobs
    case FinishEvaluation(success) => SetStatus(p.jobs, x.phase.e.item.job, if success then EvalSuccess else EvalFailed)
    case _ => p.jobs
  }

  function NextRuns(p: Pool, x: Worker, m: Move): seq<SourceRun>
    requires Turn(x, m)
  {
    match m
    case BeginRun(rt) =>
      var item := x.phase.e.item;
      if ScanActive(p.runs, item.scope, rt) then p.runs
      else p.runs + [SourceRun(Some(item.job), item.scope, rt, Running)]
    case _ => p.runs
  }

  function Advance(p: Pool, i: nat, m: Move): Pool
    requires i < |p.workers| && Turn(p.workers[i], m)
  {
    var x := p.workers[i];
    p.(w := NextWorld(p.w, CallOf(x, m)),
       workers := p.workers[i := Worker(NextPhase(p, x, m), NextRest(p, x, m))],
       counts := NextCounts(p, x, m),
       jobs := NextJobs(p, x, m),
       runs := NextRuns(p, x, m),
       claims := if m.ClaimEvaluation? && ClaimWins(p, x.phase.e.item.job)
                 then p.claims + [Claim(x.phase.e.item.job, i)] else p.claims,
       lost := if m.LookUpRaises? then p.lost + (set r | r in p.w.q.inFlight && Count(x.rest, r) > 0) else p.lost)
  }

  /** One step of one schedule; a move whose turn it is not leaves the state as it is. */
  function Apply(p: Pool, a: Action): Pool {
    match a
    case Commit(targets) =>
      var j := p.nextJob;
      p.(jobs := p.jobs[j := Job(TotalItems(targets), false, NotEvaluated)], nextJob := j + 1,
         plans := p.plans[j := PlanFor(j, targets)], outbox := p.outbox + {j})
    case SendItems(j) =>
      if j !in p.outbox || j !in p.plans then p
      else if Refuses(p.w.q, p.plans[j]) then
        p.(outbox := p.outbox - {j},
           jobs := if j in p.jobs then p.jobs[j := p.jobs[j].(enqueueFailed := true)] else p.jobs)
      else p.(outbox := p.outbox - {j}, w := Step(p.w, Send(p.plans[j])))
    case DeleteJob(j) => p.(jobs := p.jobs - {j})
    case Elapse(seconds) => p.(w := Step(p.w, Tick(seconds)))
    case ForeignRun(scope, rt) =>
      if ScanActive(p.runs, scope, rt) then p else p.(runs := p.runs + [SourceRun(None, scope, rt, Running)])
    case EndRun(k, aborted) =>
      if k < |p.runs| then p.(runs := p.runs[k := p.runs[k].(status := if aborted then Aborted else Done)]) else p
    case At(i, m) =>
      if i < |p.workers| && Turn(p.workers[i], m) then Advance(p, i, m) else p
  }

  function Schedule(p: Pool, actions: seq<Action>): Pool
    decreases actions
  {
    if actions == [] then p else Schedule(Apply(p, actions[0]), actions[1..])
  }

  // ---------------------------------------------------------------- who holds what

  predicate HoldsItem(phase: Phase) { phase.Found? || phase.Orphan? || phase.Busy? || phase.Scanning? || phase.Scanned? }

  predicate PastAck(phase: Phase) { phase.AfterAck? || phase.SawComplete? || phase.Evaluating? }

  predicate HoldsSlot(phase: Phase) { phase.Scanning? || phase.Scanned? || PastAck(phase) || phase.Releasing? }

  function Held(w: Worker, r: nat): nat {
    Bit(HoldsItem(w.phase) && w.phase.e.receipt == r) + Count(w.rest, r)
  }

  function HeldBy(ws: seq<Worker>, r: nat): nat {
    if ws == [] then 0 else Held(ws[0], r) + HeldBy(ws[1..], r)
  }

  function Slot(w: Worker, account: string): nat {
    Bit(HoldsSlot(w.phase) && w.phase.e.item.scope.account == account)
  }

  function SlotsOf(ws: seq<Worker>, account: string): nat {
    if ws == [] then 0 else Slot(ws[0], account) + SlotsOf(ws[1..], account)
  }

  lemma {:induction false} HeldUpdate(ws: seq<Worker>, i: nat, w: Worker, r: nat)
    requires i < |ws|
    ensures HeldBy(ws[i := w], r) + Held(ws[i], r) == HeldBy(ws, r) + Held(w, r)
  {
    if i > 0 {
      HeldUpdate(ws[1..], i - 1, w, r);
      assert ws[i := w][1..] == ws[1..][i - 1 := w];
    } else {
      assert ws[i := w][1..] == ws[1..];
    }
  }

  lemma {:induction false} SlotsUpdate(ws: seq<Worker>, i: nat, w: Worker, account: string)
    requires i < |ws|
    ensures SlotsOf(ws[i := w], account) + Slot(ws[i], account) == SlotsOf(ws, account) + Slot(w, account)
  {
    if i > 0 {
      SlotsUpdate(ws[1..], i - 1, w, account);
      assert ws[i := w][1..] == ws[1..][i - 1 := w];
    } else {
      assert ws[i := w][1..] == ws[1..];
    }
  }

  lemma {:induction false} HeldAtLeast(ws: seq<Worker>, i: nat, r: nat)
    requires i < |ws|
    ensures HeldBy(ws, r) >= Held(ws[i], r)
  {
    if i > 0 {
      HeldAtLeast(ws[1..], i - 1, r);
    }
  }

  /** An entry a worker carries is the one the queue accepted under that receipt. */
  ghost predicate Known(e: Entry<WorkItem>, book: Ledger<WorkItem>) {
    e.receipt in book.sent && book.sent[e.receipt] == e.item
  }

  ghost predicate WorkerKnown(w: Worker, book: Ledger<WorkItem>) {
    && (!w.phase.Idle? ==> Known(w.phase.e, book))
    && (PastAck(w.phase) ==> w.phase.e.receipt in book.acked)
    && forall k :: 0 <= k < |w.rest| ==> Known(w.rest[k], book)
  }

  // ---------------------------------------------------------------- the invariants

  /** Queue and workers agree: what is in flight is held by exactly one worker, once, or was
      lost when a job lookup raised. */
  ghost predicate FlightInv(w: World<WorkItem>, workers: seq<Worker>, lost: set<nat>) {
    && QueueHistory.Inv(w)
    && (forall r: nat :: Bit(r in w.q.inFlight) == HeldBy(workers, r) + Bit(r in lost))
    && (forall i :: 0 <= i < |workers| ==> WorkerKnown(workers[i], w.book))
  }

  /** The limiter counts exactly the workers between acquire and release. */
  ghost predicate SlotInv(counts: map<string, nat>, cap: nat, workers: seq<Worker>) {
    && WithinCap(counts, cap)
    && forall a: string :: CountOf(counts, a) == SlotsOf(workers, a)
  }

  /** Job rows, sent items and source runs all come from the plans. */
  ghost predicate PlanInv(p: Pool) {
    && (forall j :: j in p.plans ==> j < p.nextJob && forall k :: 0 <= k < |p.plans[j]| ==> p.plans[j][k].job == j)
    && (forall j :: j in p.jobs ==> j in p.plans && p.jobs[j].totalItems == |p.plans[j]|)
    && (forall r :: r in p.w.book.sent ==> Planned(p.plans, p.w.book.sent[r]))
    && (forall k :: 0 <= k < |p.runs| && p.runs[k].job.Some? ==>
          Planned(p.plans, WorkItem(p.runs[k].job.value, p.runs[k].scope)))
  }

  ghost predicate Planned(plans: map<nat, seq<WorkItem>>, item: WorkItem) {
    item.job in plans && item in plans[item.job]
  }

  ghost predicate Covered(runs: seq<SourceRun>, plans: map<nat, seq<WorkItem>>, j: nat) {
    j in plans && plans[j] != [] && |ScopesOf(runs, j)| >= |plans[j]|
  }

  ghost predicate Claimed(claims: seq<Claim>, j: nat) {
    exists k :: 0 <= k < |claims| && claims[k].job == j
  }

  /** One claim per job at most, a claim exactly when the status left NotEvaluated, and only
      for covered jobs; whoever evaluates won the claim and the status still says running. */
  ghost predicate ClaimInv(runs: seq<SourceRun>, plans: map<nat, seq<WorkItem>>, claims: seq<Claim>,
                           jobs: map<nat, Job>, workers: seq<Worker>) {
    && (forall k, m :: 0 <= k < m < |claims| ==> claims[k].job != claims[m].job)
    && (forall k :: 0 <= k < |claims| ==> Covered(runs, plans, claims[k].job))
    && (forall j :: j in jobs ==> (jobs[j].status != NotEvaluated <==> Claimed(claims, j)))
    && (forall i :: 0 <= i < |workers| ==> PhaseInv(runs, plans, claims, jobs, i, workers[i].phase))
  }

  ghost predicate PhaseInv(runs: seq<SourceRun>, plans: map<nat, seq<WorkItem>>, claims: seq<Claim>,
                           jobs: map<nat, Job>, i: nat, phase: Phase) {
    && (phase.SawComplete? ==> Covered(runs, plans, phase.e.item.job))
    && (phase.Evaluating? ==>
          Claim(phase.e.item.job, i) in claims &&
          (phase.e.item.job in jobs ==> jobs[phase.e.item.job].status == EvalRunning))
  }

  ghost predicate Inv(p: Pool) {
    && FlightInv(p.w, p.workers, p.lost)
    && SlotInv(p.counts, p.cap, p.workers)
    && PlanInv(p)
    && ClaimInv(p.runs, p.plans, p.claims, p.jobs, p.workers)
  }

  // ---------------------------------------------------------------- queue and workers

  lemma FlightSwap(w: World<WorkItem>, ws: seq<Worker>, lost: set<nat>, i: nat, x: Worker)
    requires FlightInv(w, ws, lost) && i < |ws| && WorkerKnown(x, w.book)
    requires forall r: nat :: Held(x, r) == Held(ws[i], r)
    ensures FlightInv(w, ws[i := x], lost)
  {
    forall r: nat ensures Bit(r in w.q.inFlight) == HeldBy(ws[i := x], r) + Bit(r in lost) {
      HeldUpdate(ws, i, x, r);
    }
  }

  /** The books only grow, so what a worker knows stays true. */
  lemma BookGrows(w: World<WorkItem>, op: Op<WorkItem>)
    requires QueueHistory.Inv(w)
    ensures var v := Step(w, op);
      && (forall r :: r in w.book.sent ==> r in v.book.sent && v.book.sent[r] == w.book.sent[r])
      && w.book.acked <= v.book.acked
  {
    match op
    case Send(items) => StampedKeys(w.book.sent, items, w.q.next);
    case Receive(n) => RecordedSame(w.book, Received(w.q, n, w.clock).1);
    case _ =>
  }

  lemma WorkersKeepKnowing(w: World<WorkItem>, op: Op<WorkItem>, ws: seq<Worker>)
    requires QueueHistory.Inv(w) && forall i :: 0 <= i < |ws| ==> WorkerKnown(ws[i], w.book)
    ensures forall i :: 0 <= i < |ws| ==> WorkerKnown(ws[i], Step(w, op).book)
  {
    BookGrows(w, op);
    forall i | 0 <= i < |ws| ensures WorkerKnown(ws[i], Step(w, op).book) {
      assert WorkerKnown(ws[i], w.book);
    }
  }

  /** A step of the queue that moves nothing into or out of flight. */
  lemma FlightStill(w: World<WorkItem>, op: Op<WorkItem>, ws: seq<Worker>, lost: set<nat>)
    requires FlightInv(w, ws, lost)
    requires op.Send? || op.Tick? || (op.Nack? && op.receipt !in w.q.inFlight)
    ensures FlightInv(Step(w, op), ws, lost)
  {
    StepKeeps(w, op);
    WorkersKeepKnowing(w, op, ws);
    assert Step(w, op).q.inFlight == w.q.inFlight;
  }

  lemma {:induction false} DeliverFlight(w: World<WorkItem>, n: int, r: nat)
    requires QueueHistory.Inv(w)
    ensures var (q, out) := Deliver(w.q, n); Bit(r in q.inFlight) == Bit(r in w.q.inFlight) + Count(out, r)
    decreases |w.q.ready|
  {
    if n > 0 && w.q.ready != [] {
      DeliverOneKeeps(w);
      HeadIsApart(w);
      var v := World(DeliverOne(w.q), Noted(w.book, w.q.ready[0].receipt), w.clock);
      DeliverFlight(v, n - 1, r);
      var rest := Deliver(v.q, n - 1).1;
      assert Deliver(w.q, n).1[1..] == rest;
    }
  }

  /** What a receive hands to a worker, the worker knows. */
  lemma TakenIsKnown(w: World<WorkItem>, n: int)
    requires QueueHistory.Inv(w)
    ensures WorkerKnown(Worker(Idle, Received(w.q, n, w.clock).1), Step(w, Receive(n)).book)
  {
    DeliveredOnTime(w, n);
    BookGrows(w, Receive(n));
  }

  lemma TakenIsInFlight(w: World<WorkItem>, n: int, r: nat)
    requires QueueHistory.Inv(w)
    ensures Bit(r in Step(w, Receive(n)).q.inFlight) == Bit(r in w.q.inFlight) + Count(Received(w.q, n, w.clock).1, r)
  {
    PromoteKeeps(w);
    DeliverFlight(w.(q := Promoted(w.q, w.clock)), n, r);
  }

  lemma FlightGrows(w: World<WorkItem>, v: World<WorkItem>, ws: seq<Worker>, lost: set<nat>, i: nat, out: seq<Entry<WorkItem>>)
    requires FlightInv(w, ws, lost) && i < |ws| && ws[i] == Worker(Idle, []) && QueueHistory.Inv(v)
    requires WorkerKnown(Worker(Idle, out), v.book) && forall k :: 0 <= k < |ws| ==> WorkerKnown(ws[k], v.book)
    requires forall r: nat :: Bit(r in v.q.inFlight) == Bit(r in w.q.inFlight) + Count(out, r)
    ensures FlightInv(v, ws[i := Worker(Idle, out)], lost)
  {
    var x := Worker(Idle, out);
    forall r: nat ensures Bit(r in v.q.inFlight) == HeldBy(ws[i := x], r) + Bit(r in lost) {
      HeldUpdate(ws, i, x, r);
      assert Bit(r in w.q.inFlight) == HeldBy(ws, r) + Bit(r in lost);
      assert Held(x, r) == Count(out, r) && Held(ws[i], r) == 0;
    }
  }

  lemma FlightTake(w: World<WorkItem>, ws: seq<Worker>, lost: set<nat>, i: nat, n: int)
    requires FlightInv(w, ws, lost) && i < |ws| && ws[i] == Worker(Idle, [])
    ensures FlightInv(Step(w, Receive(n)), ws[i := Worker(Idle, Received(w.q, n, w.clock).1)], lost)
  {
    var v, out := Step(w, Receive(n)), Received(w.q, n, w.clock).1;
    StepKeeps(w, Receive(n));
    WorkersKeepKnowing(w, Receive(n), ws);
    TakenIsKnown(w, n);
    forall r: nat ensures Bit(r in v.q.inFlight) == Bit(r in w.q.inFlight) + Count(out, r) { TakenIsInFlight(w, n, r); }
    FlightGrows(w, v, ws, lost, i, out);
  }

  /** What a worker holds is in flight. */
  lemma HeldIsInFlight(w: World<WorkItem>, ws: seq<Worker>, lost: set<nat>, i: nat, r: nat)
    requires FlightInv(w, ws, lost) && i < |ws| && Held(ws[i], r) > 0
    ensures r in w.q.inFlight && r !in lost
  {
    HeldAtLeast(ws, i, r);
    assert Bit(r in w.q.inFlight) == HeldBy(ws, r) + Bit(r in lost);
  }

  lemma HeldShrinks(w: World<WorkItem>, ws: seq<Worker>, lost: set<nat>, i: nat, x: Worker, r: nat)
    requires FlightInv(w, ws, lost) && i < |ws| && HoldsItem(ws[i].phase) && !HoldsItem(x.phase) && x.rest == ws[i].rest
    ensures ws[i].phase.e.receipt in w.q.inFlight
    ensures Bit(r in w.q.inFlight - {ws[i].phase.e.receipt}) == HeldBy(ws[i := x], r) + Bit(r in lost)
  {
    HeldIsInFlight(w, ws, lost, i, ws[i].phase.e.receipt);
    HeldUpdate(ws, i, x, r);
    assert Bit(r in w.q.inFlight) == HeldBy(ws, r) + Bit(r in lost);
    HeldAtLeast(ws, i, r);
  }

  /** An ack or a nack of a receipt in flight takes it, and nothing else, out of flight. */
  lemma SettlingLeavesFlight(w: World<WorkItem>, op: Op<WorkItem>, ws: seq<Worker>, r: nat)
    requires QueueHistory.Inv(w) && r in w.q.inFlight && forall k :: 0 <= k < |ws| ==> WorkerKnown(ws[k], w.book)
    requires op == Ack(r) || (op.Nack? && op.receipt == r)
    ensures var v := Step(w, op);
      && QueueHistory.Inv(v) && v.q.inFlight == w.q.inFlight - {r} && (op.Ack? ==> r in v.book.acked)
      && forall k :: 0 <= k < |ws| ==> WorkerKnown(ws[k], v.book)
  {
    StepKeeps(w, op);
    WorkersKeepKnowing(w, op, ws);
  }

  lemma FlightShrinks(w: World<WorkItem>, v: World<WorkItem>, ws: seq<Worker>, lost: set<nat>, i: nat, x: Worker)
    requires FlightInv(w, ws, lost) && i < |ws| && HoldsItem(ws[i].phase) && !HoldsItem(x.phase) && x.rest == ws[i].rest
    requires QueueHistory.Inv(v) && v.q.inFlight == w.q.inFlight - {ws[i].phase.e.receipt}
    requires WorkerKnown(x, v.book) && forall k :: 0 <= k < |ws| ==> WorkerKnown(ws[k], v.book)
    ensures FlightInv(v, ws[i := x], lost)
  {
    forall r: nat ensures Bit(r in v.q.inFlight) == HeldBy(ws[i := x], r) + Bit(r in lost) {
      HeldShrinks(w, ws, lost, i, x, r);
    }
  }

  /** Worker `i` gives its current item back by the ack or nack `op`. */
  lemma FlightGivenBack(w: World<WorkItem>, ws: seq<Worker>, lost: set<nat>, i: nat, x: Worker, op: Op<WorkItem>)
    requires FlightInv(w, ws, lost) && i < |ws| && HoldsItem(ws[i].phase) && !HoldsItem(x.phase) && x.rest == ws[i].rest
    requires op == Ack(ws[i].phase.e.receipt) || (op.Nack? && op.receipt == ws[i].phase.e.receipt)
    requires WorkerKnown(x, Step(w, op).book)
    ensures FlightInv(Step(w, op), ws[i := x], lost)
  {
    HeldIsInFlight(w, ws, lost, i, ws[i].phase.e.receipt);
    SettlingLeavesFlight(w, op, ws, ws[i].phase.e.receipt);
    FlightShrinks(w, Step(w, op), ws, lost, i, x);
  }

  lemma FlightAcked(w: World<WorkItem>, ws: seq<Worker>, lost: set<nat>, i: nat, x: Worker)
    requires FlightInv(w, ws, lost) && i < |ws| && HoldsItem(ws[i].phase) && x.rest == ws[i].rest
    requires x.phase.Idle? || x.phase == AfterAck(ws[i].phase.e)
    ensures FlightInv(Step(w, Ack(ws[i].phase.e.receipt)), ws[i := x], lost)
  {
    var r := ws[i].phase.e.receipt;
    HeldIsInFlight(w, ws, lost, i, r);
    assert WorkerKnown(ws[i], w.book);
    FlightGivenBack(w, ws, lost, i, x, Ack(r));
  }

  lemma FlightNacked(w: World<WorkItem>, ws: seq<Worker>, lost: set<nat>, i: nat, x: Worker, delay: real)
    requires FlightInv(w, ws, lost) && i < |ws| && HoldsItem(ws[i].phase) && x.rest == ws[i].rest
    requires x.phase.Idle? || x.phase == Releasing(ws[i].phase.e)
    ensures FlightInv(Step(w, Nack(ws[i].phase.e.receipt, delay)), ws[i := x], lost)
  {
    assert WorkerKnown(ws[i], w.book);
    FlightGivenBack(w, ws, lost, i, x, Nack(ws[i].phase.e.receipt, delay));
  }

  lemma FlightLost(w: World<WorkItem>, ws: seq<Worker>, lost: set<nat>, i: nat)
    requires FlightInv(w, ws, lost) && i < |ws| && ws[i].phase.Idle?
    ensures FlightInv(w, ws[i := Worker(Idle, [])], lost + (set r | r in w.q.inFlight && Count(ws[i].rest, r) > 0))
  {
    var x := Worker(Idle, []);
    var more := lost + (set r | r in w.q.inFlight && Count(ws[i].rest, r) > 0);
    forall r: nat ensures Bit(r in w.q.inFlight) == HeldBy(ws[i := x], r) + Bit(r in more) {
      HeldUpdate(ws, i, x, r);
      assert Bit(r in w.q.inFlight) == HeldBy(ws, r) + Bit(r in lost);
      HeldAtLeast(ws, i, r);
    }
  }

  /** The nack after a raising evaluation chain finds its receipt acked, and does nothing. */
  lemma AckedIsNotInFlight(w: World<WorkItem>, r: nat)
    requires Conserved(w) && r in w.book.acked
    ensures r !in w.q.inFlight
  {
    assert Owed(w.q, r) + Bit(r in w.book.acked) == Bit(r < w.q.next);
  }

  lemma FlightMoves(w: World<WorkItem>, ws: seq<Worker>, lost: set<nat>, i: nat, x: Worker)
    requires FlightInv(w, ws, lost) && i < |ws|
    requires || (ws[i].phase.Idle? && ws[i].rest != [] && x.rest == ws[i].rest[1..] &&
                 (x.phase == Found(ws[i].rest[0]) || x.phase == Orphan(ws[i].rest[0])))
             || (x.rest == ws[i].rest && HoldsItem(ws[i].phase) && HoldsItem(x.phase) && x.phase.e == ws[i].phase.e)
             || (x.rest == ws[i].rest && !HoldsItem(ws[i].phase) && !HoldsItem(x.phase) &&
                 (x.phase.Idle? || (!ws[i].phase.Idle? && x.phase.e == ws[i].phase.e && (PastAck(x.phase) ==> PastAck(ws[i].phase)))))
    ensures FlightInv(w, ws[i := x], lost)
  {
    assert WorkerKnown(ws[i], w.book);
    forall r: nat ensures Held(x, r) == Held(ws[i], r) {}
    FlightSwap(w, ws, lost, i, x);
  }

  lemma FlightRaised(p: Pool, i: nat)
    requires FlightInv(p.w, p.workers, p.lost) && i < |p.workers| && Turn(p.workers[i], ChainRaises)
    ensures var v := Advance(p, i, ChainRaises); FlightInv(v.w, v.workers, v.lost)
  {
    var x := p.workers[i];
    assert WorkerKnown(x, p.w.book);
    AckedIsNotInFlight(p.w, x.phase.e.receipt);
    FlightStill(p.w, CallOf(x, ChainRaises).value, p.workers, p.lost);
    FlightMoves(Step(p.w, CallOf(x, ChainRaises).value), p.workers, p.lost, i, Worker(Releasing(x.phase.e), x.rest));
  }

  lemma FlightSettled(p: Pool, i: nat, m: Move)
    requires FlightInv(p.w, p.workers, p.lost) && i < |p.workers| && Turn(p.workers[i], m)
    requires m.DropOrphan? || m.Defer? || m.Settle?
    ensures var v := Advance(p, i, m); FlightInv(v.w, v.workers, v.lost)
  {
    var x := p.workers[i];
    var next := Worker(NextPhase(p, x, m), NextRest(p, x, m));
    if m.DropOrphan? || (m.Settle? && x.phase.ok) {
      FlightAcked(p.w, p.workers, p.lost, i, next);
    } else {
      FlightNacked(p.w, p.workers, p.lost, i, next, CallOf(x, m).value.delay);
    }
  }

  lemma FlightQuiet(p: Pool, i: nat, m: Move)
    requires FlightInv(p.w, p.workers, p.lost) && i < |p.workers| && Turn(p.workers[i], m)
    requires CallOf(p.workers[i], m).None? && !m.LookUpRaises?
    ensures var v := Advance(p, i, m); FlightInv(v.w, v.workers, v.lost)
  {
    var x := p.workers[i];
    FlightMoves(p.w, p.workers, p.lost, i, Worker(NextPhase(p, x, m), NextRest(p, x, m)));
  }

  lemma FlightAdvance(p: Pool, i: nat, m: Move)
    requires FlightInv(p.w, p.workers, p.lost) && i < |p.workers| && Turn(p.workers[i], m)
    ensures var v := Advance(p, i, m); FlightInv(v.w, v.workers, v.lost)
  {
    match m
    case Take(n) => FlightTake(p.w, p.workers, p.lost, i, n);
    case LookUpRaises => FlightLost(p.w, p.workers, p.lost, i);
    case ChainRaises => FlightRaised(p, i);
    case DropOrphan => FlightSettled(p, i, m);
    case Defer => FlightSettled(p, i, m);
    case Settle => FlightSettled(p, i, m);
    case _ => FlightQuiet(p, i, m);
  }

  // ---------------------------------------------------------------- the limiter

  lemma SlotSwap(counts: map<string, nat>, cap: nat, ws: seq<Worker>, i: nat, x: Worker)
    requires SlotInv(counts, cap, ws) && i < |ws| && forall a: string :: Slot(x, a) == Slot(ws[i], a)
    ensures SlotInv(counts, cap, ws[i := x])
  {
    forall a: string ensures CountOf(counts, a) == SlotsOf(ws[i := x], a) {
      SlotsUpdate(ws, i, x, a);
    }
  }

  lemma SlotTaken(counts: map<string, nat>, cap: nat, ws: seq<Worker>, i: nat, x: Worker, account: string)
    requires SlotInv(counts, cap, ws) && i < |ws| && CanAcquire(counts, cap, account)
    requires forall a: string :: Slot(x, a) == Slot(ws[i], a) + Bit(a == account)
    ensures SlotInv(Acquired(counts, cap, account), cap, ws[i := x])
  {
    forall a: string ensures CountOf(Acquired(counts, cap, account), a) == SlotsOf(ws[i := x], a) {
      SlotsUpdate(ws, i, x, a);
    }
  }

  lemma SlotFreed(counts: map<string, nat>, cap: nat, ws: seq<Worker>, i: nat, x: Worker, account: string)
    requires SlotInv(counts, cap, ws) && i < |ws|
    requires forall a: string :: Slot(ws[i], a) == Slot(x, a) + Bit(a == account)
    ensures SlotInv(Released(counts, account), cap, ws[i := x])
  {
    SlotsUpdate(ws, i, x, account);
    assert CountOf(counts, account) == SlotsOf(ws, account);
    forall a: string ensures CountOf(Released(counts, account), a) == SlotsOf(ws[i := x], a) {
      SlotsUpdate(ws, i, x, a);
      assert CountOf(counts, a) == SlotsOf(ws, a);
    }
  }

  lemma SlotAdvance(p: Pool, i: nat, m: Move)
    requires SlotInv(p.counts, p.cap, p.workers) && i < |p.workers| && Turn(p.workers[i], m)
    ensures var v := Advance(p, i, m); SlotInv(v.counts, v.cap, v.workers)
  {
    var x := p.workers[i];
    var next := Worker(NextPhase(p, x, m), NextRest(p, x, m));
    if m.Acquire? && next.phase.Scanning? {
      SlotTaken(p.counts, p.cap, p.workers, i, next, x.phase.e.item.scope.account);
    } else if m.Release? {
      SlotFreed(p.counts, p.cap, p.workers, i, next, x.phase.e.item.scope.account);
    } else {
      SlotSwap(p.counts, p.cap, p.workers, i, next);
    }
  }

  // ---------------------------------------------------------------- plans

  /** Workers only hold planned items, so a run they begin is for a planned scope. */
  lemma PlanAdvance(p: Pool, i: nat, m: Move)
    requires Inv(p) && i < |p.workers| && Turn(p.workers[i], m)
    ensures PlanInv(Advance(p, i, m))
  {
    var v := Advance(p, i, m);
    var x := p.workers[i];
    assert WorkerKnown(x, p.w.book);
    match CallOf(x, m) {
      case Some(op) => SentOnlyBySend(p.w, op);
      case None =>
    }
    assert v.w.book.sent == p.w.book.sent;
    if m.BeginRun? && v.runs != p.runs {
      assert Planned(p.plans, x.phase.e.item);
    }
  }

  lemma SentOnlyBySend(w: World<WorkItem>, op: Op<WorkItem>)
    requires !op.Send?
    ensures Step(w, op).book.sent == w.book.sent
  {
    if op.Receive? { RecordedSame(w.book, Received(w.q, op.maxItems, w.clock).1); }
  }

  lemma {:induction false} StampedPlanned(plans: map<nat, seq<WorkItem>>, sent: map<nat, WorkItem>, items: seq<WorkItem>, next: nat)
    requires forall r :: r in sent ==> Planned(plans, sent[r])
    requires forall k :: 0 <= k < |items| ==> Planned(plans, items[k])
    ensures forall r :: r in Stamped(sent, items, next) ==> Planned(plans, Stamped(sent, items, next)[r])
    decreases items
  {
    if items != [] {
      StampedPlanned(plans, sent[next := items[0]], items[1..], next + 1);
    }
  }

  lemma PlanCommit(p: Pool, targets: seq<Target>)
    requires PlanInv(p)
    ensures PlanInv(Apply(p, Commit(targets)))
  {
    var v := Apply(p, Commit(targets));
    PlanMatchesTotal(p.nextJob, targets);
    forall item: WorkItem | Planned(p.plans, item) ensures Planned(v.plans, item) {
      assert item.job < p.nextJob;
    }
  }

  lemma PlanOutside(p: Pool, a: Action)
    requires PlanInv(p) && QueueHistory.Inv(p.w) && !a.At?
    ensures PlanInv(Apply(p, a))
  {
    match a {
      case Commit(targets) => PlanCommit(p, targets);
      case SendItems(j) => PlanSend(p, j);
      case _ =>
    }
  }

  lemma PlanSend(p: Pool, j: nat)
    requires PlanInv(p) && QueueHistory.Inv(p.w)
    ensures PlanInv(Apply(p, SendItems(j)))
  {
    if j in p.outbox && j in p.plans && !Refuses(p.w.q, p.plans[j]) {
      StampedPlanned(p.plans, p.w.book.sent, p.plans[j], p.w.q.next);
    }
  }

  // ---------------------------------------------------------------- claims

  /** Runs are never deleted, and a status change keeps scope and job. */
  ghost predicate Extends(runs: seq<SourceRun>, more: seq<SourceRun>) {
    && |runs| <= |more|
    && forall k :: 0 <= k < |runs| ==> more[k].job == runs[k].job && more[k].scope == runs[k].scope
  }

  lemma CoveredGrows(runs: seq<SourceRun>, more: seq<SourceRun>, plans: map<nat, seq<WorkItem>>,
                     later: map<nat, seq<WorkItem>>, j: nat)
    requires Extends(runs, more) && Covered(runs, plans, j) && j in later && later[j] == plans[j]
    ensures Covered(more, later, j)
  {
    var a, b := ScopesOf(runs, j), ScopesOf(more, j);
    forall s | s in a ensures s in b {
      var k :| 0 <= k < |runs| && runs[k].job == Some(j) && runs[k].scope == s;
      assert more[k].job == Some(j) && more[k].scope == s;
    }
    assert b == a + (b - a);
  }

  lemma ClaimExtends(p: Pool, more: seq<SourceRun>, later: map<nat, seq<WorkItem>>)
    requires ClaimInv(p.runs, p.plans, p.claims, p.jobs, p.workers) && Extends(p.runs, more)
    requires forall j :: j in p.plans ==> j in later && later[j] == p.plans[j]
    ensures ClaimInv(more, later, p.claims, p.jobs, p.workers)
  {
    forall j | Covered(p.runs, p.plans, j) ensures Covered(more, later, j) {
      CoveredGrows(p.runs, more, p.plans, later, j);
    }
    forall i | 0 <= i < |p.workers| ensures PhaseInv(more, later, p.claims, p.jobs, i, p.workers[i].phase) {
      assert PhaseInv(p.runs, p.plans, p.claims, p.jobs, i, p.workers[i].phase);
    }
  }

  /** The winning UPDATE: no claim existed for this job, so this one is the first. */
  lemma ClaimWon(p: Pool, i: nat)
    requires ClaimInv(p.runs, p.plans, p.claims, p.jobs, p.workers)
    requires i < |p.workers| && p.workers[i].phase.SawComplete? && ClaimWins(p, p.workers[i].phase.e.item.job)
    ensures var v := Advance(p, i, ClaimEvaluation); ClaimInv(v.runs, v.plans, v.claims, v.jobs, v.workers)
  {
    var v := Advance(p, i, ClaimEvaluation);
    var j := p.workers[i].phase.e.item.job;
    assert PhaseInv(p.runs, p.plans, p.claims, p.jobs, i, p.workers[i].phase);
    assert !Claimed(p.claims, j);
    forall x | x in v.jobs ensures v.jobs[x].status != NotEvaluated <==> Claimed(v.claims, x) {
      if Claimed(p.claims, x) {
        var k :| 0 <= k < |p.claims| && p.claims[k].job == x;
        assert v.claims[k].job == x;
      }
      if x == j { assert v.claims[|p.claims|].job == x; }
    }
    forall k | 0 <= k < |v.workers| ensures PhaseInv(v.runs, v.plans, v.claims, v.jobs, k, v.workers[k].phase) {
      assert PhaseInv(p.runs, p.plans, p.claims, p.jobs, k, p.workers[k].phase);
      if k != i && p.workers[k].phase.Evaluating? {
        var c :| 0 <= c < |p.claims| && p.claims[c] == Claim(p.workers[k].phase.e.item.job, k);
        assert v.claims[c] == p.claims[c];
      }
    }
  }

  /** Two workers evaluating one job would be two claims. */
  lemma OneEvaluator(p: Pool, i: nat, k: nat)
    requires ClaimInv(p.runs, p.plans, p.claims, p.jobs, p.workers)
    requires i < |p.workers| && p.workers[i].phase.Evaluating?
    requires k < |p.workers| && p.workers[k].phase.Evaluating? && p.workers[k].phase.e.item.job == p.workers[i].phase.e.item.job
    ensures i == k
  {
    var j := p.workers[i].phase.e.item.job;
    assert PhaseInv(p.runs, p.plans, p.claims, p.jobs, i, p.workers[i].phase);
    assert PhaseInv(p.runs, p.plans, p.claims, p.jobs, k, p.workers[k].phase);
    var c :| 0 <= c < |p.claims| && p.claims[c] == Claim(j, i);
    var d :| 0 <= d < |p.claims| && p.claims[d] == Claim(j, k);
    assert p.claims[c].job == p.claims[d].job;
  }

  lemma ClaimFinished(p: Pool, i: nat, success: bool)
    requires ClaimInv(p.runs, p.plans, p.claims, p.jobs, p.workers)
    requires i < |p.workers| && p.workers[i].phase.Evaluating?
    ensures var v := Advance(p, i, FinishEvaluation(success)); ClaimInv(v.runs, v.plans, v.claims, v.jobs, v.workers)
  {
    var v := Advance(p, i, FinishEvaluation(success));
    var j := p.workers[i].phase.e.item.job;
    assert PhaseInv(p.runs, p.plans, p.claims, p.jobs, i, p.workers[i].phase);
    forall k | 0 <= k < |v.workers| ensures PhaseInv(v.runs, v.plans, v.claims, v.jobs, k, v.workers[k].phase) {
      assert PhaseInv(p.runs, p.plans, p.claims, p.jobs, k, p.workers[k].phase);
      if p.workers[k].phase.Evaluating? && p.workers[k].phase.e.item.job == j { OneEvaluator(p, i, k); }
    }
  }

  /** The item in a worker's hands comes from a plan. */
  lemma WorkIsPlanned(p: Pool, i: nat)
    requires Inv(p) && i < |p.workers| && !p.workers[i].phase.Idle?
    ensures Planned(p.plans, p.workers[i].phase.e.item)
  {
    assert WorkerKnown(p.workers[i], p.w.book);
  }

  /** A worker that finds its job complete finds it covered. */
  lemma CheckedIsCovered(p: Pool, i: nat)
    requires Inv(p) && i < |p.workers| && Turn(p.workers[i], CheckComplete)
    requires NextPhase(p, p.workers[i], CheckComplete).SawComplete?
    ensures Covered(p.runs, p.plans, p.workers[i].phase.e.item.job)
  {
    WorkIsPlanned(p, i);
  }

  lemma ClaimStill(p: Pool, i: nat, m: Move)
    requires ClaimInv(p.runs, p.plans, p.claims, p.jobs, p.workers)
    requires i < |p.workers| && Turn(p.workers[i], m) && !m.FinishEvaluation?
    requires m.ClaimEvaluation? ==> !ClaimWins(p, p.workers[i].phase.e.item.job)
    requires m.CheckComplete? && NextPhase(p, p.workers[i], m).SawComplete? ==> Covered(p.runs, p.plans, p.workers[i].phase.e.item.job)
    ensures var v := Advance(p, i, m); ClaimInv(v.runs, v.plans, v.claims, v.jobs, v.workers)
  {
    var v := Advance(p, i, m);
    ClaimExtends(p, v.runs, p.plans);
    assert PhaseInv(p.runs, p.plans, p.claims, p.jobs, i, p.workers[i].phase);
    assert PhaseInv(v.runs, v.plans, v.claims, v.jobs, i, v.workers[i].phase);
  }

  lemma ClaimAdvance(p: Pool, i: nat, m: Move)
    requires Inv(p) && i < |p.workers| && Turn(p.workers[i], m)
    ensures var v := Advance(p, i, m); ClaimInv(v.runs, v.plans, v.claims, v.jobs, v.workers)
  {
    if m.ClaimEvaluation? && ClaimWins(p, p.workers[i].phase.e.item.job) {
      ClaimWon(p, i);
    } else if m.FinishEvaluation? {
      ClaimFinished(p, i, m.success);
    } else {
      if m.CheckComplete? && NextPhase(p, p.workers[i], m).SawComplete? { CheckedIsCovered(p, i); }
      ClaimStill(p, i, m);
    }
  }

  /** Rows may go, and rows may come for jobs nobody has claimed. */
  lemma ClaimRows(p: Pool, runs: seq<SourceRun>, plans: map<nat, seq<WorkItem>>, jobs: map<nat, Job>)
    requires ClaimInv(runs, plans, p.claims, p.jobs, p.workers)
    requires forall j :: j in jobs ==>
      if j in p.jobs then jobs[j].status == p.jobs[j].status
      else jobs[j].status == NotEvaluated && !Claimed(p.claims, j) && j !in p.plans
    requires PlanInv(p) && forall i :: 0 <= i < |p.workers| && !p.workers[i].phase.Idle? ==> p.workers[i].phase.e.item.job in p.plans
    ensures ClaimInv(runs, plans, p.claims, jobs, p.workers)
  {
    forall i | 0 <= i < |p.workers| ensures PhaseInv(runs, plans, p.claims, jobs, i, p.workers[i].phase) {
      assert PhaseInv(runs, plans, p.claims, p.jobs, i, p.workers[i].phase);
    }
  }

  lemma NextJobIsUnclaimed(p: Pool)
    requires Inv(p)
    ensures !Claimed(p.claims, p.nextJob) && p.nextJob !in p.plans
    ensures forall i :: 0 <= i < |p.workers| && !p.workers[i].phase.Idle? ==> p.workers[i].phase.e.item.job in p.plans
  {
    forall i | 0 <= i < |p.workers| && !p.workers[i].phase.Idle? ensures p.workers[i].phase.e.item.job in p.plans {
      assert WorkerKnown(p.workers[i], p.w.book);
      assert Planned(p.plans, p.workers[i].phase.e.item);
    }
    forall k | 0 <= k < |p.claims| ensures p.claims[k].job != p.nextJob {
      assert Covered(p.runs, p.plans, p.claims[k].job);
    }
  }

  /** What the router and other processes do to rows, runs and plans. */
  lemma OutsideRuns(p: Pool, a: Action)
    requires PlanInv(p) && !a.At?
    ensures var v := Apply(p, a);
      && v.claims == p.claims && v.workers == p.workers && Extends(p.runs, v.runs)
      && forall j :: j in p.plans ==> j in v.plans && v.plans[j] == p.plans[j]
  {
  }

  lemma OutsideJobs(p: Pool, a: Action, j: nat)
    requires PlanInv(p) && !a.At? && j in Apply(p, a).jobs
    ensures if j in p.jobs then Apply(p, a).jobs[j].status == p.jobs[j].status
            else j == p.nextJob && Apply(p, a).jobs[j].status == NotEvaluated
  {
  }

  lemma OutsideRows(p: Pool, a: Action)
    requires PlanInv(p) && !a.At?
    ensures var v := Apply(p, a);
      && v.claims == p.claims && v.workers == p.workers && Extends(p.runs, v.runs)
      && (forall j :: j in p.plans ==> j in v.plans && v.plans[j] == p.plans[j])
      && (forall j :: j in v.jobs ==>
            if j in p.jobs then v.jobs[j].status == p.jobs[j].status
            else j == p.nextJob && v.jobs[j].status == NotEvaluated)
  {
    OutsideRuns(p, a);
    forall j | j in Apply(p, a).jobs
      ensures if j in p.jobs then Apply(p, a).jobs[j].status == p.jobs[j].status
              else j == p.nextJob && Apply(p, a).jobs[j].status == NotEvaluated
    {
      OutsideJobs(p, a, j);
    }
  }

  lemma ClaimOutside(p: Pool, a: Action)
    requires Inv(p) && !a.At?
    ensures var v := Apply(p, a); ClaimInv(v.runs, v.plans, v.claims, v.jobs, v.workers)
  {
    OutsideRows(p, a);
    NextJobIsUnclaimed(p);
    var v := Apply(p, a);
    ClaimExtends(p, v.runs, v.plans);
    ClaimRows(p, v.runs, v.plans, v.jobs);
  }

  // ---------------------------------------------------------------- every schedule

  lemma MoveKeeps(p: Pool, i: nat, m: Move)
    requires Inv(p) && i < |p.workers| && Turn(p.workers[i], m)
    ensures Inv(Advance(p, i, m))
  {
    FlightAdvance(p, i, m);
    SlotAdvance(p, i, m);
    PlanAdvance(p, i, m);
    ClaimAdvance(p, i, m);
  }

  /** The queue call an action from outside the pool makes, if any. */
  function OutsideCall(p: Pool, a: Action): Option<Op<WorkItem>> {
    match a
    case SendItems(j) => if j in p.outbox && j in p.plans && !Refuses(p.w.q, p.plans[j]) then Some(Send(p.plans[j])) else None
    case Elapse(seconds) => Some(Tick(seconds))
    case _ => None
  }

  lemma OutsideLeavesWorkers(p: Pool, a: Action)
    requires !a.At?
    ensures var v := Apply(p, a);
      && v.w == NextWorld(p.w, OutsideCall(p, a))
      && v.workers == p.workers && v.lost == p.lost && v.counts == p.counts && v.cap == p.cap
  {
  }

  lemma FlightOutside(p: Pool, a: Action)
    requires FlightInv(p.w, p.workers, p.lost) && !a.At?
    ensures FlightInv(NextWorld(p.w, OutsideCall(p, a)), p.workers, p.lost)
  {
    match OutsideCall(p, a) {
      case Some(op) => FlightStill(p.w, op, p.workers, p.lost);
      case None =>
    }
  }

  lemma OutsideKeeps(p: Pool, a: Action)
    requires Inv(p) && !a.At?
    ensures Inv(Apply(p, a))
  {
    OutsideLeavesWorkers(p, a);
    FlightOutside(p, a);
    PlanOutside(p, a);
    ClaimOutside(p, a);
  }

  /** Every step of every schedule keeps every invariant. */
  lemma ApplyKeeps(p: Pool, a: Action)
    requires Inv(p)
    ensures Inv(Apply(p, a))
  {
    if !a.At? {
      OutsideKeeps(p, a);
    } else if a.i < |p.workers| && Turn(p.workers[a.i], a.move) {
      MoveKeeps(p, a.i, a.move);
    }
  }

  lemma {:induction false} ScheduleKeeps(p: Pool, actions: seq<Action>)
    requires Inv(p)
    ensures Inv(Schedule(p, actions))
    decreases actions
  {
    if actions != [] {
      ApplyKeeps(p, actions[0]);
      ScheduleKeeps(Apply(p, actions[0]), actions[1..]);
    }
  }

  lemma StartOk(maxsize: int, clock: real, workers: nat, cap: nat)
    ensures Inv(Start(maxsize, clock, workers, cap))
  {
    var p := Start(maxsize, clock, workers, cap);
    assert QueueHistory.Inv(Fresh<WorkItem>(maxsize, clock));
    forall r: nat ensures HeldBy(p.workers, r) == 0 { IdleHoldsNothing(p.workers, r, ""); }
    forall a: string ensures SlotsOf(p.workers, a) == 0 { IdleHoldsNothing(p.workers, 0, a); }
  }

  /** A state some schedule leads to, for some capacity, pool size and cap. */
  ghost predicate Reachable(p: Pool) {
    exists maxsize, clock, workers, cap, actions :: p == Schedule(Start(maxsize, clock, workers, cap), actions)
  }

  /** Every reachable state has every invariant. */
  lemma ReachableOk(p: Pool)
    requires Reachable(p)
    ensures Inv(p)
  {
    var maxsize, clock, workers, cap, actions :| p == Schedule(Start(maxsize, clock, workers, cap), actions);
    StartOk(maxsize, clock, workers, cap);
    ScheduleKeeps(Start(maxsize, clock, workers, cap), actions);
  }

  lemma {:induction false} ScheduleAppend(p: Pool, actions: seq<Action>, a: Action)
    ensures Schedule(p, actions + [a]) == Apply(Schedule(p, actions), a)
    decreases actions
  {
    if actions == [] {
      assert actions + [a] == [a];
      assert Schedule(Apply(p, a), []) == Apply(p, a);
    } else {
      assert (actions + [a])[0] == actions[0] && (actions + [a])[1..] == actions[1..] + [a];
      ScheduleAppend(Apply(p, actions[0]), actions[1..], a);
    }
  }

  lemma ReachableStep(p: Pool, a: Action)
    requires Reachable(p)
    ensures Reachable(Apply(p, a))
  {
    var maxsize, clock, workers, cap, actions :| p == Schedule(Start(maxsize, clock, workers, cap), actions);
    ScheduleAppend(Start(maxsize, clock, workers, cap), actions, a);
  }

  lemma {:induction false} ReachableRun(p: Pool, actions: seq<Action>)
    requires Reachable(p)
    ensures Reachable(Schedule(p, actions))
    decreases actions
  {
    if actions != [] {
      ReachableStep(p, actions[0]);
      ReachableRun(Apply(p, actions[0]), actions[1..]);
    }
  }

  // ---------------------------------------------------------------- what the protocol promises

  lemma PlanScopesLast(plan: seq<WorkItem>)
    requires plan != []
    ensures PlanScopes(plan) == PlanScopes(plan[..|plan| - 1]) + {plan[|plan| - 1].scope}
  {
    var front := plan[..|plan| - 1];
    forall s | s in PlanScopes(plan) ensures s in PlanScopes(front) || s == plan[|front|].scope {
      var k :| 0 <= k < |plan| && plan[k].scope == s;
      if k < |front| { assert front[k].scope == s; }
    }
    forall s | s in PlanScopes(front) ensures s in PlanScopes(plan) {
      var k :| 0 <= k < |front| && front[k].scope == s;
      assert plan[k].scope == s;
    }
    assert plan[|front|].scope in PlanScopes(plan);
  }

  lemma DistinctScopesLast(plan: seq<WorkItem>)
    requires plan != []
    ensures var front, last := plan[..|plan| - 1], plan[|plan| - 1];
      DistinctScopes(plan) <==> DistinctScopes(front) && last.scope !in PlanScopes(front)
  {
    var front, last := plan[..|plan| - 1], plan[|plan| - 1];
    forall s | s in PlanScopes(front) && DistinctScopes(plan) ensures s != last.scope {
      var k :| 0 <= k < |front| && front[k].scope == s;
      assert plan[k].scope != plan[|front|].scope;
    }
    forall k | 0 <= k < |front| ensures front[k].scope in PlanScopes(front) && plan[k] == front[k] {}
  }

  /** A plan has as many scopes as items exactly when its scopes are pairwise distinct. */
  lemma {:induction false} PlanScopesCount(plan: seq<WorkItem>)
    ensures |PlanScopes(plan)| <= |plan|
    ensures |PlanScopes(plan)| == |plan| <==> DistinctScopes(plan)
  {
    if plan != [] {
      PlanScopesCount(plan[..|plan| - 1]);
      PlanScopesLast(plan);
      DistinctScopesLast(plan);
    }
  }

  lemma SubsetOfSameSize<T>(a: set<T>, b: set<T>)
    requires a <= b && |b| <= |a|
    ensures a == b
  {
    assert b == a + (b - a);
  }

  lemma RunsArePlanned(p: Pool, j: nat)
    requires PlanInv(p) && j in p.plans
    ensures ScopesOf(p.runs, j) <= PlanScopes(p.plans[j])
  {
    forall s | s in ScopesOf(p.runs, j) ensures s in PlanScopes(p.plans[j]) {
      var k :| 0 <= k < |p.runs| && p.runs[k].job == Some(j) && p.runs[k].scope == s;
      assert Planned(p.plans, WorkItem(j, s));
      var n :| 0 <= n < |p.plans[j]| && p.plans[j][n] == WorkItem(j, s);
      assert p.plans[j][n].scope == s;
    }
  }

  ghost predicate DistinctScopes(plan: seq<WorkItem>) {
    forall i, k :: 0 <= i < k < |plan| ==> plan[i].scope != plan[k].scope
  }

  /** The pigeonhole behind completion: enough scopes means all of them, and no two alike. */
  lemma CoveredExactlyWhen(p: Pool, j: nat)
    requires PlanInv(p) && j in p.plans
    ensures |ScopesOf(p.runs, j)| >= |p.plans[j]| <==>
      ScopesOf(p.runs, j) == PlanScopes(p.plans[j]) && DistinctScopes(p.plans[j])
  {
    RunsArePlanned(p, j);
    PlanScopesCount(p.plans[j]);
    var a, b := ScopesOf(p.runs, j), PlanScopes(p.plans[j]);
    assert b == a + (b - a);
    if |a| >= |p.plans[j]| { SubsetOfSameSize(a, b); }
  }

  ghost predicate ClaimedOnce(claims: seq<Claim>, j: nat) {
    exists c :: 0 <= c < |claims| && claims[c].job == j &&
      forall d :: 0 <= d < |claims| && claims[d].job == j ==> d == c
  }

  /** Evaluation safety, in every reachable state: once a job's status left NotEvaluated,
      exactly one claim won it, every enqueued scope has a source run of that job, no other
      scope has one, and the enqueued scopes were pairwise distinct. So a job with a
      duplicate target is never evaluated. */
  lemma EvaluationIsSafe(p: Pool, j: nat)
    requires Reachable(p) && j in p.jobs && p.jobs[j].status != NotEvaluated
    ensures ClaimedOnce(p.claims, j)
    ensures j in p.plans && p.plans[j] != []
    ensures ScopesOf(p.runs, j) == PlanScopes(p.plans[j]) && DistinctScopes(p.plans[j])
  {
    ReachableOk(p);
    assert Claimed(p.claims, j);
    var c :| 0 <= c < |p.claims| && p.claims[c].job == j;
    assert Covered(p.runs, p.plans, p.claims[c].job);
    CoveredExactlyWhen(p, j);
  }

  /** NULL, then running, then one final outcome; a later status is never an earlier one. */
  function Rank(status: EvalStatus): nat {
    match status case NotEvaluated => 0 case EvalRunning => 1 case _ => 2
  }

  ghost predicate Later(before: EvalStatus, after: EvalStatus) {
    Rank(before) <= Rank(after) && (Rank(before) == 2 ==> after == before)
  }

  lemma StatusAdvance(p: Pool, i: nat, m: Move, j: nat)
    requires i < |p.workers| && Turn(p.workers[i], m) && j in p.jobs
    requires PhaseInv(p.runs, p.plans, p.claims, p.jobs, i, p.workers[i].phase)
    ensures var after := NextJobs(p, p.workers[i], m);
      && after.Keys == p.jobs.Keys
      && Later(p.jobs[j].status, after[j].status) && Rank(after[j].status) <= Rank(p.jobs[j].status) + 1
  {
  }

  lemma NumbersOnlyGrow(p: Pool, a: Action)
    ensures p.nextJob <= Apply(p, a).nextJob
  {
  }

  lemma RowsAreNumbered(p: Pool, j: nat)
    requires Reachable(p) && j in p.jobs
    ensures j < p.nextJob
  {
    ReachableOk(p);
  }

  lemma WorkersKeepPhases(p: Pool, i: nat)
    requires Reachable(p) && i < |p.workers|
    ensures PhaseInv(p.runs, p.plans, p.claims, p.jobs, i, p.workers[i].phase)
  {
    ReachableOk(p);
  }

  /** One step: the status of a surviving row moves at most one place forward. */
  lemma StatusStep(p: Pool, a: Action, v: Pool, j: nat)
    requires Reachable(p) && v == Apply(p, a) && j in p.jobs && j in v.jobs
    ensures Later(p.jobs[j].status, v.jobs[j].status) && Rank(v.jobs[j].status) <= Rank(p.jobs[j].status) + 1
  {
    RowsAreNumbered(p, j);
    if a.At? && a.i < |p.workers| && Turn(p.workers[a.i], a.move) {
      WorkersKeepPhases(p, a.i);
      StatusAdvance(p, a.i, a.move, j);
    }
  }

  /** A row that is there after a step was there before, unless the step committed it. */
  lemma RowStep(p: Pool, a: Action, v: Pool, j: nat)
    requires v == Apply(p, a) && j in v.jobs && j !in p.jobs
    ensures a.Commit? && j == p.nextJob && v.jobs[j].status == NotEvaluated
  {
  }

  lemma {:induction false} JobIdsAreNotReused(p: Pool, actions: seq<Action>, j: nat)
    requires Reachable(p) && j < p.nextJob && j in Schedule(p, actions).jobs
    ensures j in p.jobs
    decreases actions
  {
    if actions != [] {
      ReachableStep(p, actions[0]);
      NumbersOnlyGrow(p, actions[0]);
      JobIdsAreNotReused(Apply(p, actions[0]), actions[1..], j);
      if j !in p.jobs { RowStep(p, actions[0], Apply(p, actions[0]), j); }
    }
  }

  /** Over any stretch of any schedule the status only moves forward, and a final one stays. */
  lemma {:induction false} StatusOnlyMovesForward(p: Pool, actions: seq<Action>, j: nat)
    requires Reachable(p) && j in p.jobs && j in Schedule(p, actions).jobs
    ensures Later(p.jobs[j].status, Schedule(p, actions).jobs[j].status)
    decreases actions
  {
    if actions != [] {
      var v := Apply(p, actions[0]);
      ReachableStep(p, actions[0]);
      RowsAreNumbered(p, j);
      NumbersOnlyGrow(p, actions[0]);
      JobIdsAreNotReused(v, actions[1..], j);
      StatusStep(p, actions[0], v, j);
      StatusOnlyMovesForward(v, actions[1..], j);
    }
  }

  lemma {:induction false} HeldByTwo(ws: seq<Worker>, i: nat, k: nat, r: nat)
    requires i < k < |ws|
    ensures HeldBy(ws, r) >= Held(ws[i], r) + Held(ws[k], r)
  {
    if i > 0 {
      HeldByTwo(ws[1..], i - 1, k - 1, r);
    } else {
      HeldAtLeast(ws[1..], k - 1, r);
    }
  }

  /** In every reachable state, no receipt is held by two workers or twice by one, and what is
      held is in flight. */
  lemma ReceiptsAreHeldOnce(p: Pool, i: nat, k: nat, r: nat)
    requires Reachable(p) && i < |p.workers| && k < |p.workers| && Held(p.workers[i], r) > 0
    ensures Held(p.workers[i], r) == 1 && r in p.w.q.inFlight
    ensures k != i ==> Held(p.workers[k], r) == 0
  {
    ReachableOk(p);
    HeldIsInFlight(p.w, p.workers, p.lost, i, r);
    HeldAtLeast(p.workers, i, r);
    if k < i { HeldByTwo(p.workers, k, i, r); }
    if i < k { HeldByTwo(p.workers, i, k, r); }
    assert Bit(r in p.w.q.inFlight) == HeldBy(p.workers, r) + Bit(r in p.lost);
  }

  /** In every reachable state, the limiter's count for an account is the number of workers
      between acquire and release for it, never above the cap and never stored as zero. */
  lemma LimiterCountsWorkers(p: Pool, account: string)
    requires Reachable(p)
    ensures CountOf(p.counts, account) == SlotsOf(p.workers, account) <= p.cap
    ensures account in p.counts ==> p.counts[account] > 0
  {
    ReachableOk(p);
  }

  lemma {:induction false} IdleHoldsNothing(ws: seq<Worker>, r: nat, account: string)
    requires forall i :: 0 <= i < |ws| ==> ws[i] == Worker(Idle, [])
    ensures HeldBy(ws, r) == 0 && SlotsOf(ws, account) == 0
  {
    if ws != [] {
      IdleHoldsNothing(ws[1..], r, account);
    }
  }

  /** When every worker is idle the limiter is empty and nothing is in flight except what
      raising lookups lost: all other received items were acked or given back. */
  lemma QuiescentPoolHoldsNothing(p: Pool)
    requires Reachable(p) && forall i :: 0 <= i < |p.workers| ==> p.workers[i] == Worker(Idle, [])
    ensures p.counts == map[]
    ensures forall r: nat :: r in p.w.q.inFlight <==> r in p.lost
  {
    ReachableOk(p);
    forall r: nat ensures r in p.w.q.inFlight <==> r in p.lost {
      IdleHoldsNothing(p.workers, r, "");
      assert Bit(r in p.w.q.inFlight) == HeldBy(p.workers, r) + Bit(r in p.lost);
    }
    forall a: string ensures a !in p.counts {
      IdleHoldsNothing(p.workers, 0, a);
      assert CountOf(p.counts, a) == SlotsOf(p.workers, a);
    }
  }
}

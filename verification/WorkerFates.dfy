/** What becomes of the item in a worker's hands, in every reachable state and over every
    schedule (`drain_once` in apps/api/src/constat_api/worker.py). */
module WorkerFates {
  import opened Wrappers
  import opened CollectQueue
  import opened QueueEffects
  import opened CollectWorker
  import opened QueueHistory
  import opened CollectProtocol

  // ---------------------------------------------------------------- one place per receipt

  /** The history invariant leaves each receipt one place. */
  lemma HistoryIsUnique(w: World<WorkItem>)
    requires QueueHistory.Inv(w)
    ensures UniqueReceipts(w.q)
  {
    forall i | 0 <= i < |w.q.ready| ensures w.q.ready[i].receipt !in w.q.inFlight {
      ReadyIsApart(w, i);
    }
    forall i, j | 0 <= i < j < |w.q.ready| ensures w.q.ready[i].receipt != w.q.ready[j].receipt {
      CountTwo(w.q.ready, i, j);
      ReadyIsApart(w, i);
    }
    forall i, j | 0 <= i < |w.q.ready| && 0 <= j < |w.q.delayed| ensures w.q.ready[i].receipt != w.q.delayed[j].entry.receipt {
      ReadyIsApart(w, i);
      ParkedMember(w.q.delayed, j);
    }
    forall i | 0 <= i < |w.q.delayed| ensures w.q.delayed[i].entry.receipt !in w.q.inFlight {
      ParkedIsApart(w, i);
    }
    forall i, j | 0 <= i < j < |w.q.delayed| ensures w.q.delayed[i].entry.receipt != w.q.delayed[j].entry.receipt {
      ParkedTwo(w.q.delayed, i, j);
      ParkedIsApart(w, i);
    }
  }

  lemma ReadyIsApart(w: World<WorkItem>, i: nat)
    requires Conserved(w) && i < |w.q.ready|
    ensures var r := w.q.ready[i].receipt; Count(w.q.ready, r) == 1 && CountParked(w.q.delayed, r) == 0 && r !in w.q.inFlight
  {
    var r := w.q.ready[i].receipt;
    CountMember(w.q.ready, i);
    assert Owed(w.q, r) + Bit(r in w.book.acked) == Bit(r < w.q.next);
  }

  lemma ParkedIsApart(w: World<WorkItem>, i: nat)
    requires Conserved(w) && i < |w.q.delayed|
    ensures var r := w.q.delayed[i].entry.receipt; CountParked(w.q.delayed, r) == 1 && r !in w.q.inFlight
  {
    var r := w.q.delayed[i].entry.receipt;
    ParkedMember(w.q.delayed, i);
    assert Owed(w.q, r) + Bit(r in w.book.acked) == Bit(r < w.q.next);
  }

  lemma {:induction false} CountTwo<T>(s: seq<Entry<T>>, i: nat, j: nat)
    requires i < j < |s|
    ensures s[i].receipt == s[j].receipt ==> Count(s, s[i].receipt) >= 2
  {
    if i > 0 {
      assert s[1..][i - 1] == s[i] && s[1..][j - 1] == s[j];
      CountTwo(s[1..], i - 1, j - 1);
    } else {
      assert s[1..][j - 1] == s[j];
      CountMember(s[1..], j - 1);
    }
  }

  lemma {:induction false} ParkedTwo<T>(d: seq<Parked<T>>, i: nat, j: nat)
    requires i < j < |d|
    ensures d[i].entry.receipt == d[j].entry.receipt ==> CountParked(d, d[i].entry.receipt) >= 2
  {
    if i > 0 {
      assert d[1..][i - 1] == d[i] && d[1..][j - 1] == d[j];
      ParkedTwo(d[1..], i - 1, j - 1);
    } else {
      assert d[1..][j - 1] == d[j];
      ParkedMember(d[1..], j - 1);
    }
  }

  // ---------------------------------------------------------------- what a worker holds is what flies

  ghost predicate FliesAs(q: Queue<WorkItem>, e: Entry<WorkItem>) {
    e.receipt in q.inFlight && q.inFlight[e.receipt] == (e.item, e.attempts)
  }

  /** The entries in the worker's hands are in flight with this item and these attempts. */
  ghost predicate HoldsTrue(q: Queue<WorkItem>, x: Worker) {
    && (HoldsItem(x.phase) ==> FliesAs(q, x.phase.e))
    && forall k :: 0 <= k < |x.rest| ==> FliesAs(q, x.rest[k])
  }

  ghost predicate AllHoldTrue(p: Pool) { forall i :: 0 <= i < |p.workers| ==> HoldsTrue(p.w.q, p.workers[i]) }

  /** A queue call leaves what is in flight there, but for the receipt it settles. */
  lemma FlightsStay(w: World<WorkItem>, op: Op<WorkItem>, e: Entry<WorkItem>)
    requires QueueHistory.Inv(w) && FliesAs(w.q, e)
    requires op != Ack(e.receipt) && !(op.Nack? && op.receipt == e.receipt)
    ensures FliesAs(Step(w, op).q, e)
  {
    if op.Receive? {
      var u := Promoted(w.q, w.clock);
      PromoteKeeps(w);
      HistoryIsUnique(w.(q := u));
      DeliveryFlies(u, op.maxItems);
    }
  }

  /** The call settles none of the entries in these hands. */
  ghost predicate Spares(op: Op<WorkItem>, x: Worker) {
    (op.Ack? || op.Nack?) ==> Held(x, op.receipt) == 0
  }

  lemma WorkerStaysTrue(w: World<WorkItem>, op: Op<WorkItem>, x: Worker)
    requires QueueHistory.Inv(w) && HoldsTrue(w.q, x) && Spares(op, x)
    ensures HoldsTrue(Step(w, op).q, x)
  {
    if HoldsItem(x.phase) { FlightsStay(w, op, x.phase.e); }
    forall k | 0 <= k < |x.rest| ensures FliesAs(Step(w, op).q, x.rest[k]) {
      CountMember(x.rest, k);
      FlightsStay(w, op, x.rest[k]);
    }
  }

  lemma TakenFlies(w: World<WorkItem>, n: int)
    requires QueueHistory.Inv(w)
    ensures HoldsTrue(Step(w, Receive(n)).q, Worker(Idle, Received(w.q, n, w.clock).1))
  {
    HistoryIsUnique(w);
    ReceivedFliesOnly(w.q, n, w.clock);
    assert Step(w, Receive(n)).q == Received(w.q, n, w.clock).0;
  }

  /** Giving an item back leaves true what else is in these hands. */
  lemma SettlerStaysTrue(p: Pool, i: nat, m: Move)
    requires Reachable(p) && i < |p.workers| && Turn(p.workers[i], m) && HoldsTrue(p.w.q, p.workers[i])
    requires m.DropOrphan? || m.Defer? || m.Settle?
    ensures HoldsTrue(Advance(p, i, m).w.q, Worker(Idle, p.workers[i].rest))
  {
    ReachableOk(p);
    ReceiptsAreHeldOnce(p, i, i, p.workers[i].phase.e.receipt);
    WorkerStaysTrue(p.w, CallOf(p.workers[i], m).value, Worker(Idle, p.workers[i].rest));
  }

  /** A worker's own move leaves true what it still holds. */
  lemma MoverStaysTrue(p: Pool, i: nat, m: Move)
    requires Reachable(p) && i < |p.workers| && Turn(p.workers[i], m) && HoldsTrue(p.w.q, p.workers[i])
    ensures HoldsTrue(Advance(p, i, m).w.q, Advance(p, i, m).workers[i])
  {
    match m
    case Take(n) =>
      ReachableOk(p);
      TakenFlies(p.w, n);
    case ChainRaises =>
      ReachableOk(p);
      ChainChangesNothing(p, i);
    case DropOrphan => SettlerStaysTrue(p, i, m);
    case Defer => SettlerStaysTrue(p, i, m);
    case Settle => SettlerStaysTrue(p, i, m);
    case _ =>
  }

  lemma ChainChangesNothing(p: Pool, i: nat)
    requires CollectProtocol.Inv(p) && i < |p.workers| && Turn(p.workers[i], ChainRaises)
    ensures Advance(p, i, ChainRaises).w.q == p.w.q
  {
    assert WorkerKnown(p.workers[i], p.w.book);
    AckedIsNotInFlight(p.w, p.workers[i].phase.e.receipt);
  }

  lemma BystanderStaysTrue(p: Pool, i: nat, m: Move, k: nat)
    requires Reachable(p) && i < |p.workers| && Turn(p.workers[i], m)
    requires k < |p.workers| && k != i && HoldsTrue(p.w.q, p.workers[k])
    ensures HoldsTrue(Advance(p, i, m).w.q, p.workers[k])
  {
    ReachableOk(p);
    var x := p.workers[i];
    if m.ChainRaises? {
      ChainChangesNothing(p, i);
    } else if CallOf(x, m).Some? {
      if m.DropOrphan? || m.Defer? || m.Settle? { ReceiptsAreHeldOnce(p, i, k, x.phase.e.receipt); }
      WorkerStaysTrue(p.w, CallOf(x, m).value, p.workers[k]);
    }
  }

  lemma HoldingStaysTrue(p: Pool, a: Action)
    requires Reachable(p) && AllHoldTrue(p)
    ensures AllHoldTrue(Apply(p, a))
  {
    ReachableOk(p);
    if !a.At? {
      OutsideLeavesWorkers(p, a);
      forall k | 0 <= k < |p.workers| ensures HoldsTrue(Apply(p, a).w.q, p.workers[k]) {
        if OutsideCall(p, a).Some? { WorkerStaysTrue(p.w, OutsideCall(p, a).value, p.workers[k]); }
      }
    } else if a.i < |p.workers| && Turn(p.workers[a.i], a.move) {
      var v := Advance(p, a.i, a.move);
      forall k | 0 <= k < |v.workers| ensures HoldsTrue(v.w.q, v.workers[k]) {
        if k == a.i { MoverStaysTrue(p, a.i, a.move); } else { BystanderStaysTrue(p, a.i, a.move, k); }
      }
    }
  }

  lemma {:induction false} HoldingStaysTrueAlong(p: Pool, actions: seq<Action>)
    requires Reachable(p) && AllHoldTrue(p)
    ensures AllHoldTrue(Schedule(p, actions))
    decreases actions
  {
    if actions != [] {
      ReachableStep(p, actions[0]);
      HoldingStaysTrue(p, actions[0]);
      HoldingStaysTrueAlong(Apply(p, actions[0]), actions[1..]);
    }
  }

  lemma ReachableHoldTrue(p: Pool)
    requires Reachable(p)
    ensures AllHoldTrue(p)
  {
    var maxsize, clock, workers, cap, actions :| p == Schedule(Start(maxsize, clock, workers, cap), actions);
    var s := Start(maxsize, clock, workers, cap);
    assert s == Schedule(s, []);
    HoldingStaysTrueAlong(s, actions);
  }

  /** In every reachable state, what a worker holds is in flight with the item and the attempts
      the worker sees, and nowhere else. */
  lemma HeldFliesOnly(p: Pool, i: nat)
    requires Reachable(p) && i < |p.workers| && HoldsItem(p.workers[i].phase)
    ensures OnlyInFlight(p.w.q, p.workers[i].phase.e)
  {
    ReachableHoldTrue(p);
    assert HoldsTrue(p.w.q, p.workers[i]);
    ReachableOk(p);
    FlightIsApart(p.w, p.workers[i].phase.e.receipt);
  }

  // ---------------------------------------------------------------- the fate of one item

  /** What the four ways of giving an item back do to the queue. */
  lemma QueueAfter(p: Pool, i: nat, m: Move, e: Entry<WorkItem>)
    requires i < |p.workers| && Turn(p.workers[i], m) && e.receipt in p.w.q.inFlight
    requires (m.Settle? || m.Defer? || m.DropOrphan?) && p.workers[i].phase.e == e
    ensures var q := Apply(p, At(i, m)).w.q;
      q == if m.DropOrphan? || (m.Settle? && p.workers[i].phase.ok) then Acked(p.w.q, e.receipt)
           else Nacked(p.w.q, e.receipt, if m.Defer? then BUSY_ACCOUNT_DELAY_SECONDS else BackoffSeconds(e.attempts), p.w.clock)
  {
  }

  /** Settling the item of a clean scan acks it: it is nowhere afterwards. */
  lemma CleanScanIsForgotten(p: Pool, i: nat, e: Entry<WorkItem>)
    requires Reachable(p) && i < |p.workers| && p.workers[i].phase == Scanned(e, true)
    ensures Nowhere(Apply(p, At(i, Settle)).w.q, e.receipt)
  {
    HeldFliesOnly(p, i);
    QueueAfter(p, i, Settle, e);
    AckForgets(p.w.q, e);
  }

  /** Settling the item of a failed scan parks it, once and with its attempts, for thirty seconds
      per delivery, at most three hundred. */
  lemma FailedScanIsParked(p: Pool, i: nat, e: Entry<WorkItem>)
    requires Reachable(p) && i < |p.workers| && p.workers[i].phase == Scanned(e, false)
    ensures ParkedOnce(Apply(p, At(i, Settle)).w.q, e, p.w.clock + SecondsToWait(e.attempts))
  {
    HeldFliesOnly(p, i);
    QueueAfter(p, i, Settle, e);
    FailedIsParked(p.w.q, e, p.w.clock);
  }

  /** A busy account parks the item for five seconds. */
  lemma BusyIsParked(p: Pool, i: nat, e: Entry<WorkItem>)
    requires Reachable(p) && i < |p.workers| && p.workers[i].phase == Busy(e)
    ensures ParkedOnce(Apply(p, At(i, Defer)).w.q, e, p.w.clock + 5.0)
  {
    HeldFliesOnly(p, i);
    QueueAfter(p, i, Defer, e);
    DeferredIsParked(p.w.q, e, p.w.clock);
  }

  /** An item without its job row is forgotten. */
  lemma OrphanIsForgotten(p: Pool, i: nat, e: Entry<WorkItem>)
    requires Reachable(p) && i < |p.workers| && p.workers[i].phase == Orphan(e)
    ensures Nowhere(Apply(p, At(i, DropOrphan)).w.q, e.receipt)
  {
    HeldFliesOnly(p, i);
    QueueAfter(p, i, DropOrphan, e);
    AckForgets(p.w.q, e);
  }

  // ---------------------------------------------------------------- why an item is gone

  /** In this step the scan of the receipt's item ends ok, or its job row is found missing. */
  ghost predicate EndsWell(p: Pool, a: Action, r: nat) {
    && a.At? && a.i < |p.workers| && Turn(p.workers[a.i], a.move)
    && ((a.move == ScanEnds(true) && p.workers[a.i].phase.e.receipt == r)
        || (a.move == LookUp && p.workers[a.i].rest[0].receipt == r && p.workers[a.i].rest[0].item.job !in p.jobs))
  }

  ghost predicate EverEndsWell(p: Pool, actions: seq<Action>, r: nat)
    decreases actions
  {
    actions != [] && (EndsWell(p, actions[0], r) || EverEndsWell(Apply(p, actions[0]), actions[1..], r))
  }

  /** A worker is about to ack the receipt. */
  ghost predicate AboutToAck(p: Pool, r: nat) {
    exists i :: 0 <= i < |p.workers| && MayAck(p.workers[i], r)
  }

  ghost predicate MayAck(x: Worker, r: nat) {
    (x.phase.Orphan? || (x.phase.Scanned? && x.phase.ok)) && x.phase.e.receipt == r
  }

  lemma AckNeedsAWorker(p: Pool, a: Action, r: nat)
    requires r in Apply(p, a).w.book.acked && r !in p.w.book.acked
    ensures AboutToAck(p, r)
  {
    if !a.At? {
      OutsideLeavesWorkers(p, a);
    } else if a.i < |p.workers| && Turn(p.workers[a.i], a.move) {
      if a.move.Take? { RecordedSame(p.w.book, Received(p.w.q, a.move.maxItems, p.w.clock).1); }
      assert MayAck(p.workers[a.i], r);
    }
  }

  lemma ReadinessNeedsAnEnd(p: Pool, a: Action, r: nat)
    requires AboutToAck(Apply(p, a), r)
    ensures AboutToAck(p, r) || EndsWell(p, a, r)
  {
    var v := Apply(p, a);
    var i :| 0 <= i < |v.workers| && MayAck(v.workers[i], r);
    if !a.At? {
      OutsideLeavesWorkers(p, a);
      assert MayAck(p.workers[i], r);
    } else if !EndsWell(p, a, r) {
      assert MayAck(p.workers[i], r);
    }
  }

  lemma {:induction false} AckedOnlyAfterAnEnd(p: Pool, actions: seq<Action>, r: nat)
    requires r in Schedule(p, actions).w.book.acked
    ensures r in p.w.book.acked || AboutToAck(p, r) || EverEndsWell(p, actions, r)
    decreases actions
  {
    if actions != [] {
      var v := Apply(p, actions[0]);
      AckedOnlyAfterAnEnd(v, actions[1..], r);
      if r in v.w.book.acked && r !in p.w.book.acked { AckNeedsAWorker(p, actions[0], r); }
      if AboutToAck(v, r) { ReadinessNeedsAnEnd(p, actions[0], r); }
    }
  }

  /** Over every schedule: an item is acked only after its scan ended ok or its job row was
      missing. */
  lemma OnlyCleanOrOrphanIsAcked(maxsize: int, clock: real, workers: nat, cap: nat, actions: seq<Action>, r: nat)
    requires r in Schedule(Start(maxsize, clock, workers, cap), actions).w.book.acked
    ensures EverEndsWell(Start(maxsize, clock, workers, cap), actions, r)
  {
    AckedOnlyAfterAnEnd(Start(maxsize, clock, workers, cap), actions, r);
  }
}

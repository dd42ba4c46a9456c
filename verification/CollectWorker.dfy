/** One pass of a collection worker and the per-account limiter
    (apps/api/src/constat_api/worker.py). */
module CollectWorker {
  import opened CollectQueue
  import opened QueueEffects

  datatype Scope = Scope(account: string, region: string)

  /** One account and one region of one job. */
  datatype WorkItem = WorkItem(job: nat, scope: Scope)

  const NACK_BACKOFF_BASE_SECONDS := 30.0
  const NACK_BACKOFF_MAX_SECONDS := 300.0
  const BUSY_ACCOUNT_DELAY_SECONDS := 5.0

  /** Seconds to wait after delivery number `attempts` failed. */
  function BackoffSeconds(attempts: nat): (r: real)
    ensures NACK_BACKOFF_BASE_SECONDS <= r <= NACK_BACKOFF_MAX_SECONDS
    ensures 1 <= attempts <= 10 ==> r == 30.0 * attempts as real
    ensures attempts >= 10 ==> r == NACK_BACKOFF_MAX_SECONDS
  {
    var wait := NACK_BACKOFF_BASE_SECONDS * (if attempts < 1 then 1 else attempts) as real;
    if wait < NACK_BACKOFF_MAX_SECONDS then wait else NACK_BACKOFF_MAX_SECONDS
  }

  // ---------------------------------------------------------------- the limiter

  function CountOf(counts: map<string, nat>, account: string): nat {
    if account in counts then counts[account] else 0
  }

  predicate CanAcquire(counts: map<string, nat>, max: nat, account: string) {
    CountOf(counts, account) < max
  }

  function Acquired(counts: map<string, nat>, max: nat, account: string): map<string, nat> {
    if CanAcquire(counts, max, account) then counts[account := CountOf(counts, account) + 1] else counts
  }

  function Released(counts: map<string, nat>, account: string): map<string, nat> {
    if CountOf(counts, account) <= 1 then counts - {account} else counts[account := counts[account] - 1]
  }

  /** No count above the cap, and an idle account has no entry at all. */
  ghost predicate WithinCap(counts: map<string, nat>, max: nat) {
    forall a :: a in counts ==> 1 <= counts[a] <= max
  }

  /** Releasing undoes acquiring exactly, for this account and every other. */
  lemma ReleaseUndoesAcquire(counts: map<string, nat>, max: nat, account: string)
    requires WithinCap(counts, max) && CanAcquire(counts, max, account)
    ensures WithinCap(Acquired(counts, max, account), max)
    ensures Released(Acquired(counts, max, account), account) == counts
  {
    var taken := Acquired(counts, max, account);
    if account !in counts {
      assert taken - {account} == counts;
    } else {
      assert taken[account := counts[account]] == counts;
    }
  }

  class PerAccountLimiter {
    const max: nat
    var counts: map<string, nat>

    ghost predicate Valid()
      reads this
    {
      max >= 1 && WithinCap(counts, max)
    }

    /** The program refuses a cap below one. */
    constructor (max: nat)
      requires max >= 1
      ensures Valid() && counts == map[] && this.max == max
    {
      this.max := max;
      counts := map[];
    }

    method TryAcquire(account: string) returns (taken: bool)
      requires Valid()
      modifies this
      ensures Valid() && counts == Acquired(old(counts), max, account)
      ensures taken <==> CountOf(old(counts), account) < max
      ensures forall a :: CountOf(counts, a) == CountOf(old(counts), a) + if taken && a == account then 1 else 0
    {
      var current := if account in counts then counts[account] else 0;
      if current >= max {
        return false;
      }
      counts := counts[account := current + 1];
      return true;
    }

    method Release(account: string)
      requires Valid()
      modifies this
      ensures Valid() && counts == Released(old(counts), account)
      ensures forall a :: a != account ==> CountOf(counts, a) == CountOf(old(counts), a)
      ensures CountOf(counts, account) == if CountOf(old(counts), account) > 0 then CountOf(old(counts), account) - 1 else 0
    {
      var current := if account in counts then counts[account] else 0;
      if current <= 1 {
        counts := counts - {account};
      } else {
        counts := counts[account := current - 1];
      }
    }
  }

  // ---------------------------------------------------------------- one drain pass

  /** What the collector does with one item. */
  datatype Scan = Clean | RegionErrors | Raises

  datatype Status = Success | Failed | Deferred | Dropped

  datatype ItemOutcome = ItemOutcome(item: WorkItem, status: Status)

  /** The outcome of one item, from facts about that item alone. */
  function StatusOf(jobExists: bool, slotFree: bool, scan: Scan): Status {
    if !jobExists then Dropped
    else if !slotFree then Deferred
    else if scan == Clean then Success
    else Failed
  }

  /** What the queue owes after the item was settled with `status` at time `now`. */
  function Settled<T>(q: Queue<T>, e: Entry<T>, status: Status, now: real): Queue<T> {
    match status
    case Success => Acked(q, e.receipt)
    case Dropped => Acked(q, e.receipt)
    case Deferred => Nacked(q, e.receipt, BUSY_ACCOUNT_DELAY_SECONDS, now)
    case Failed => Nacked(q, e.receipt, BackoffSeconds(e.attempts), now)
  }

  /** Thirty seconds per delivery, five minutes at most. */
  ghost function SecondsToWait(attempts: nat): real {
    if attempts >= 10 then 300.0 else if attempts <= 1 then 30.0 else 30.0 * attempts as real
  }

  /** What becomes of an item, in plain numbers: gone after a clean scan or without its job,
      otherwise parked once, for five seconds when its account was busy and after a failed scan
      for thirty per delivery, five minutes at most. */
  ghost predicate Fate<T>(q: Queue<T>, e: Entry<T>, status: Status, now: real) {
    match status
    case Success => Nowhere(q, e.receipt)
    case Dropped => Nowhere(q, e.receipt)
    case Deferred => ParkedOnce(q, e, now + 5.0)
    case Failed => ParkedOnce(q, e, now + SecondsToWait(e.attempts))
  }

  lemma BackoffInNumbers(attempts: nat)
    ensures BackoffSeconds(attempts) == SecondsToWait(attempts) >= 0.0
  {
  }

  lemma FailedIsParked<T>(q: Queue<T>, e: Entry<T>, now: real)
    requires OnlyInFlight(q, e)
    ensures ParkedOnce(Nacked(q, e.receipt, BackoffSeconds(e.attempts), now), e, now + SecondsToWait(e.attempts))
  {
    BackoffInNumbers(e.attempts);
    NackParks(q, e, BackoffSeconds(e.attempts), now, SecondsToWait(e.attempts));
  }

  lemma DeferredIsParked<T>(q: Queue<T>, e: Entry<T>, now: real)
    requires OnlyInFlight(q, e)
    ensures ParkedOnce(Nacked(q, e.receipt, BUSY_ACCOUNT_DELAY_SECONDS, now), e, now + 5.0)
  {
    NackParks(q, e, BUSY_ACCOUNT_DELAY_SECONDS, now, 5.0);
  }

  lemma SettledMeetsItsFate<T>(q: Queue<T>, e: Entry<T>, status: Status, now: real)
    requires OnlyInFlight(q, e)
    ensures Fate(Settled(q, e, status, now), e, status, now)
  {
    match status
    case Success => AckForgets(q, e);
    case Dropped => AckForgets(q, e);
    case Deferred => DeferredIsParked(q, e, now);
    case Failed => FailedIsParked(q, e, now);
  }

  lemma SettledMovesOnly<T>(q: Queue<T>, e: Entry<T>, status: Status, now: real)
    requires OnlyInFlight(q, e)
    ensures MovesOnly(q, Settled(q, e, status, now), e)
  {
    match status
    case Success => AckForgets(q, e);
    case Dropped => AckForgets(q, e);
    case Deferred => NackParks(q, e, BUSY_ACCOUNT_DELAY_SECONDS, now, BUSY_ACCOUNT_DELAY_SECONDS);
    case Failed => NackParks(q, e, BackoffSeconds(e.attempts), now, BackoffSeconds(e.attempts));
  }

  lemma FateStays<T>(q: Queue<T>, v: Queue<T>, e: Entry<T>, f: Entry<T>, status: Status, now: real)
    requires MovesOnly(q, v, e) && f.receipt != e.receipt && Fate(q, f, status, now)
    ensures Fate(v, f, status, now)
  {
    OthersStay(q, v, e, f, now + 5.0);
    OthersStay(q, v, e, f, now + SecondsToWait(f.attempts));
  }

  /** What a pass reads: which jobs exist, the limiter when it starts, what the collector does
      with item `i` and the clock when it is settled. */
  datatype Circumstances = Circumstances(
    jobs: set<nat>, counts: map<string, nat>, max: nat, scans: nat -> Scan, at: nat -> real)

  function StatusAt(e: Entry<WorkItem>, c: Circumstances, i: nat): Status {
    StatusOf(e.item.job in c.jobs, CanAcquire(c.counts, c.max, e.item.scope.account), c.scans(i))
  }

  /** The queue after the first `n` items of the batch were settled, each on its own. */
  function Drained(q: Queue<WorkItem>, batch: seq<Entry<WorkItem>>, c: Circumstances, n: nat): Queue<WorkItem>
    requires n <= |batch|
  {
    if n == 0 then q
    else Settled(Drained(q, batch, c, n - 1), batch[n - 1], StatusAt(batch[n - 1], c, n - 1), c.at(n - 1))
  }

  /** Every item of a pass meets its fate, whatever becomes of the others. */
  lemma {:induction false} DrainedMeetFates(q: Queue<WorkItem>, batch: seq<Entry<WorkItem>>, c: Circumstances, n: nat)
    requires n <= |batch| && forall i :: 0 <= i < |batch| ==> OnlyInFlight(q, batch[i])
    requires forall i, j :: 0 <= i < j < |batch| ==> batch[i].receipt != batch[j].receipt
    ensures var v := Drained(q, batch, c, n);
      && (forall i :: 0 <= i < n ==> Fate(v, batch[i], StatusAt(batch[i], c, i), c.at(i)))
      && (forall i :: n <= i < |batch| ==> OnlyInFlight(v, batch[i]))
  {
    if n > 0 {
      var u := Drained(q, batch, c, n - 1);
      var e, status, now := batch[n - 1], StatusAt(batch[n - 1], c, n - 1), c.at(n - 1);
      var v := Settled(u, e, status, now);
      DrainedMeetFates(q, batch, c, n - 1);
      SettledMeetsItsFate(u, e, status, now);
      SettledMovesOnly(u, e, status, now);
      forall i | 0 <= i < n - 1 ensures Fate(v, batch[i], StatusAt(batch[i], c, i), c.at(i)) {
        FateStays(u, v, e, batch[i], StatusAt(batch[i], c, i), c.at(i));
      }
      forall i | n <= i < |batch| ensures OnlyInFlight(v, batch[i]) {
        OthersStay(u, v, e, batch[i], 0.0);
      }
    }
  }

  /** The body of the drain loop: look the job up, take a slot, scan, ack or nack, release. */
  method SettleOne(queue: InProcessQueue<WorkItem>, limiter: PerAccountLimiter, e: Entry<WorkItem>,
                   jobExists: bool, scan: Scan, now: real)
    returns (status: Status)
    requires queue.Valid() && limiter.Valid()
    modifies queue, limiter
    ensures queue.Valid() && limiter.Valid() && limiter.counts == old(limiter.counts)
    ensures status == StatusOf(jobExists, CanAcquire(old(limiter.counts), limiter.max, e.item.scope.account), scan)
    ensures status == Dropped <==> !jobExists
    ensures status == Deferred <==> jobExists && CountOf(old(limiter.counts), e.item.scope.account) >= limiter.max
    ensures status == Success <==> jobExists && CountOf(old(limiter.counts), e.item.scope.account) < limiter.max && scan == Clean
    ensures queue.State() == Settled(old(queue.State()), e, status, now)
    ensures queue.inFlight == old(queue.inFlight) - {e.receipt}
  {
    if !jobExists {
      var _ := queue.Ack(e.receipt);
      return Dropped;
    }
    var taken := limiter.TryAcquire(e.item.scope.account);
    if !taken {
      queue.Nack(e.receipt, BUSY_ACCOUNT_DELAY_SECONDS, now);
      return Deferred;
    }
    ReleaseUndoesAcquire(old(limiter.counts), limiter.max, e.item.scope.account);
    if scan == Clean {
      var _ := queue.Ack(e.receipt);
      status := Success;
    } else {
      queue.Nack(e.receipt, BackoffSeconds(e.attempts), now);
      status := Failed;
    }
    limiter.Release(e.item.scope.account);
  }

  method SettleBatch(queue: InProcessQueue<WorkItem>, limiter: PerAccountLimiter, batch: seq<Entry<WorkItem>>, c: Circumstances)
    returns (outcomes: seq<ItemOutcome>)
    requires queue.Valid() && limiter.Valid() && c.counts == limiter.counts && c.max == limiter.max
    modifies queue, limiter
    ensures queue.Valid() && limiter.Valid() && limiter.counts == old(limiter.counts)
    ensures |outcomes| == |batch|
    ensures forall i :: 0 <= i < |batch| ==> outcomes[i] == ItemOutcome(batch[i].item, StatusAt(batch[i], c, i))
    ensures queue.State() == Drained(old(queue.State()), batch, c, |batch|)
    ensures forall i :: 0 <= i < |batch| ==> batch[i].receipt !in queue.inFlight
  {
    ghost var q := queue.State();
    outcomes := [];
    for i := 0 to |batch|
      invariant queue.Valid() && limiter.Valid() && limiter.counts == c.counts
      invariant |outcomes| == i
      invariant forall j :: 0 <= j < i ==> outcomes[j] == ItemOutcome(batch[j].item, StatusAt(batch[j], c, j))
      invariant queue.State() == Drained(q, batch, c, i)
      invariant forall j :: 0 <= j < i ==> batch[j].receipt !in queue.inFlight
    {
      var e := batch[i];
      var status := SettleOne(queue, limiter, e, e.item.job in c.jobs, c.scans(i), c.at(i));
      outcomes := outcomes + [ItemOutcome(e.item, status)];
    }
  }

  /** Receive a batch and settle every item on its own. Each outcome is a function of its own
      item; each item leaves the in-flight map by exactly the ack or nack its outcome calls for;
      the limiter is back where it was. */
  method DrainOnce(queue: InProcessQueue<WorkItem>, limiter: PerAccountLimiter, maxItems: int, now: real, c: Circumstances)
    returns (outcomes: seq<ItemOutcome>)
    requires queue.Valid() && limiter.Valid() && c.counts == limiter.counts && c.max == limiter.max
    modifies queue, limiter
    ensures queue.Valid() && limiter.Valid() && limiter.counts == old(limiter.counts)
    ensures var (q, batch) := Received(old(queue.State()), maxItems, now);
      && |outcomes| == |batch|
      && (forall i :: 0 <= i < |batch| ==>
            outcomes[i] == ItemOutcome(batch[i].item, StatusAt(batch[i], c, i)) && batch[i].receipt !in queue.inFlight)
      && queue.State() == Drained(q, batch, c, |batch|)
      && (UniqueReceipts(old(queue.State())) ==>
            forall i :: 0 <= i < |batch| ==> Fate(queue.State(), batch[i], outcomes[i].status, c.at(i)))
    ensures var batch := Received(old(queue.State()), maxItems, now).1;
      forall i :: 0 <= i < |outcomes| ==>
        && (outcomes[i].status == Dropped <==> batch[i].item.job !in c.jobs)
        && (outcomes[i].status == Deferred <==> batch[i].item.job in c.jobs && CountOf(c.counts, batch[i].item.scope.account) >= c.max)
        && (outcomes[i].status == Success <==>
              batch[i].item.job in c.jobs && CountOf(c.counts, batch[i].item.scope.account) < c.max && c.scans(i) == Clean)
  {
    ghost var q := queue.State();
    var batch := queue.ReceiveNow(maxItems, now);
    outcomes := SettleBatch(queue, limiter, batch, c);
    PassMeetsFates(q, maxItems, now, c);
  }

  lemma PassMeetsFates(q: Queue<WorkItem>, maxItems: int, now: real, c: Circumstances)
    requires Sorted(q.delayed)
    ensures var (r, batch) := Received(q, maxItems, now);
      UniqueReceipts(q) ==>
        forall i :: 0 <= i < |batch| ==> Fate(Drained(r, batch, c, |batch|), batch[i], StatusAt(batch[i], c, i), c.at(i))
  {
    if UniqueReceipts(q) {
      var (r, batch) := Received(q, maxItems, now);
      ReceivedFliesOnly(q, maxItems, now);
      DrainedMeetFates(r, batch, c, |batch|);
    }
  }
}

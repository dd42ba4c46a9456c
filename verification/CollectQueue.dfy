/** The bounded in-process work queue (apps/api/src/constat_api/collect_queue.py).

    `Queue` is the state the condition lock protects; each lock-protected call is one
    function on it, and the class `InProcessQueue` computes those functions in place.
    The lemmas say that the delayed list stays sorted and what each call moves. */
module CollectQueue {

  /** One queued item; `attempts` counts the deliveries so far. */
  datatype Entry<T> = Entry(receipt: nat, item: T, attempts: nat)

  /** A nacked item that must not be delivered before `notBefore`. */
  datatype Parked<T> = Parked(notBefore: real, entry: Entry<T>)

  /** `next` stands for the source of fresh receipts (random uuids in the program). */
  datatype Queue<T> = Queue(
    maxsize: int,
    ready: seq<Entry<T>>,
    delayed: seq<Parked<T>>,
    inFlight: map<nat, (T, nat)>,
    next: nat)
  {
    function PendingCount(): nat { |ready| + |delayed| + |inFlight| }
  }

  function Empty<T>(maxsize: int): Queue<T> { Queue(maxsize, [], [], map[], 0) }

  // ---------------------------------------------------------------- one call, one function

  /** The entries `send` appends for `items`, numbered from `next`. */
  function Stamp<T>(items: seq<T>, next: nat): (r: seq<Entry<T>>)
    ensures |r| == |items|
  {
    if items == [] then [] else [Entry(next, items[0], 0)] + Stamp(items[1..], next + 1)
  }

  predicate Refuses<T>(q: Queue<T>, items: seq<T>) {
    items != [] && q.PendingCount() + |items| > q.maxsize
  }

  function Sent<T>(q: Queue<T>, items: seq<T>): Queue<T> {
    if Refuses(q, items) then q
    else q.(ready := q.ready + Stamp(items, q.next), next := q.next + |items|)
  }

  /** The parked entries whose time has come, and the ones that must still wait. */
  function Due<T>(delayed: seq<Parked<T>>, now: real): seq<Entry<T>> {
    if delayed == [] then []
    else (if delayed[0].notBefore <= now then [delayed[0].entry] else []) + Due(delayed[1..], now)
  }

  function NotDue<T>(delayed: seq<Parked<T>>, now: real): seq<Parked<T>> {
    if delayed == [] then []
    else (if delayed[0].notBefore <= now then [] else [delayed[0]]) + NotDue(delayed[1..], now)
  }

  function Promoted<T>(q: Queue<T>, now: real): Queue<T> {
    q.(ready := q.ready + Due(q.delayed, now), delayed := NotDue(q.delayed, now))
  }

  function Handed<T>(e: Entry<T>): Entry<T> { e.(attempts := e.attempts + 1) }

  function DeliverOne<T>(q: Queue<T>): Queue<T>
    requires q.ready != []
  {
    var e := Handed(q.ready[0]);
    q.(ready := q.ready[1..], inFlight := q.inFlight[e.receipt := (e.item, e.attempts)])
  }

  function Deliver<T>(q: Queue<T>, n: int): (Queue<T>, seq<Entry<T>>)
    decreases |q.ready|
  {
    if n <= 0 || q.ready == [] then (q, [])
    else
      var r := Deliver(DeliverOne(q), n - 1);
      (r.0, [Handed(q.ready[0])] + r.1)
  }

  /** One pass of `receive` under the lock. */
  function Received<T>(q: Queue<T>, maxItems: int, now: real): (Queue<T>, seq<Entry<T>>) {
    Deliver(Promoted(q, now), maxItems)
  }

  function Acked<T>(q: Queue<T>, receipt: nat): Queue<T> {
    q.(inFlight := q.inFlight - {receipt})
  }

  function Max(a: real, b: real): real { if a >= b then a else b }

  /** Stable insertion: after every entry that is not later. */
  function Insert<T>(delayed: seq<Parked<T>>, p: Parked<T>): seq<Parked<T>> {
    if delayed == [] then [p]
    else if p.notBefore < delayed[0].notBefore then [p] + delayed
    else [delayed[0]] + Insert(delayed[1..], p)
  }

  /** The library's stable sort by not-before time. */
  function StableSort<T>(delayed: seq<Parked<T>>): seq<Parked<T>> {
    if delayed == [] then []
    else Insert(StableSort(delayed[..|delayed| - 1]), delayed[|delayed| - 1])
  }

  function Nacked<T>(q: Queue<T>, receipt: nat, delay: real, now: real): Queue<T> {
    if receipt !in q.inFlight then q
    else
      var (item, attempts) := q.inFlight[receipt];
      var p := Parked(now + Max(delay, 0.0), Entry(receipt, item, attempts));
      q.(delayed := StableSort(q.delayed + [p]), inFlight := q.inFlight - {receipt})
  }

  // ---------------------------------------------------------------- the delayed list stays sorted

  ghost predicate Sorted<T>(delayed: seq<Parked<T>>) {
    forall i, j :: 0 <= i < j < |delayed| ==> delayed[i].notBefore <= delayed[j].notBefore
  }

  lemma {:induction false} InsertAdds<T>(d: seq<Parked<T>>, p: Parked<T>)
    ensures multiset(Insert(d, p)) == multiset(d) + multiset{p}
  {
    if d != [] {
      assert d == [d[0]] + d[1..];
      InsertAdds(d[1..], p);
    }
  }

  lemma {:induction false} InsertKeepsSorted<T>(d: seq<Parked<T>>, p: Parked<T>)
    requires Sorted(d)
    ensures Sorted(Insert(d, p))
  {
    if d != [] && d[0].notBefore <= p.notBefore {
      InsertKeepsSorted(d[1..], p);
      var rest := Insert(d[1..], p);
      InsertAdds(d[1..], p);
      forall k | 0 <= k < |rest| ensures d[0].notBefore <= rest[k].notBefore {
        assert rest[k] in multiset(rest);
      }
    }
  }

  /** Sorting rearranges: nothing is lost, nothing invented, whatever the input order. */
  lemma {:induction false} StableSortSorts<T>(d: seq<Parked<T>>)
    ensures Sorted(StableSort(d))
    ensures multiset(StableSort(d)) == multiset(d)
  {
    if d != [] {
      StableSortSorts(d[..|d| - 1]);
      InsertKeepsSorted(StableSort(d[..|d| - 1]), d[|d| - 1]);
      InsertAdds(StableSort(d[..|d| - 1]), d[|d| - 1]);
      assert d == d[..|d| - 1] + [d[|d| - 1]];
    }
  }

  lemma {:induction false} InsertLast<T>(d: seq<Parked<T>>, p: Parked<T>)
    requires Sorted(d + [p])
    ensures Insert(d, p) == d + [p]
  {
    if d != [] {
      assert (d + [p])[0] == d[0] && (d + [p])[|d|] == p;
      assert (d + [p])[1..] == d[1..] + [p];
      InsertLast(d[1..], p);
      assert d == [d[0]] + d[1..];
    }
  }

  /** On the already sorted list the whole sort is one insertion, so a nack only places
      its own entry: everything else keeps its order. */
  lemma {:induction false} SortedStays<T>(d: seq<Parked<T>>)
    requires Sorted(d)
    ensures StableSort(d) == d
  {
    if d != [] {
      var front, last := d[..|d| - 1], d[|d| - 1];
      assert d == front + [last];
      SortedStays(front);
      InsertLast(front, last);
    }
  }

  lemma NackOnlyInserts<T>(d: seq<Parked<T>>, p: Parked<T>)
    requires Sorted(d)
    ensures StableSort(d + [p]) == Insert(d, p)
  {
    assert (d + [p])[..|d|] == d;
    SortedStays(d);
  }

  lemma {:induction false} NotDueSorted<T>(d: seq<Parked<T>>, now: real, low: real)
    requires Sorted(d) && forall i :: 0 <= i < |d| ==> low <= d[i].notBefore
    ensures Sorted(NotDue(d, now))
    ensures forall i :: 0 <= i < |NotDue(d, now)| ==> low <= NotDue(d, now)[i].notBefore
  {
    if d != [] {
      NotDueSorted(d[1..], now, d[0].notBefore);
    }
  }

  lemma {:induction false} DueMembers<T>(d: seq<Parked<T>>, now: real)
    ensures forall e :: e in Due(d, now) <==> exists p :: p in d && p.entry == e && p.notBefore <= now
  {
    if d != [] {
      DueMembers(d[1..], now);
      assert d == [d[0]] + d[1..];
    }
  }

  /** Once the head of a sorted list is not due, nothing behind it is. */
  lemma {:induction false} HeadDecides<T>(d: seq<Parked<T>>, now: real)
    requires Sorted(d) && (d != [] ==> now < d[0].notBefore)
    ensures Due(d, now) == [] && NotDue(d, now) == d
  {
    if d != [] {
      HeadDecides(d[1..], now);
    }
  }

  /** Delivery is first-in first-out: the items handed over are exactly the oldest ready
      ones, in order, each with one more attempt, and the others are not touched. */
  lemma {:induction false} DeliverIsFifo<T>(q: Queue<T>, n: int)
    ensures var (r, out) := Deliver(q, n);
      var k := if n < 0 then 0 else if n < |q.ready| then n else |q.ready|;
      && |out| == k
      && (forall i :: 0 <= i < k ==> out[i] == Handed(q.ready[i]))
      && r.ready == q.ready[k..] && r.delayed == q.delayed
    decreases |q.ready|
  {
    if n > 0 && q.ready != [] {
      DeliverIsFifo(DeliverOne(q), n - 1);
    }
  }

  /** A pass that hands over nothing changes nothing, so a waiting receive is invisible. */
  lemma EmptyReceiveIsInvisible<T>(q: Queue<T>, maxItems: int, now: real)
    requires Sorted(q.delayed) && maxItems > 0 && Received(q, maxItems, now).1 == []
    ensures Received(q, maxItems, now).0 == q
  {
    DeliverIsFifo(Promoted(q, now), maxItems);
    assert q.ready == [] && Due(q.delayed, now) == [];
    NoneDue(q.delayed, now);
  }

  lemma {:induction false} NoneDue<T>(d: seq<Parked<T>>, now: real)
    requires Due(d, now) == []
    ensures NotDue(d, now) == d
  {
    if d != [] {
      NoneDue(d[1..], now);
    }
  }

  /** Delivery up to `n`, with `out` already handed over. */
  ghost function Resumed<T>(q: Queue<T>, n: int, out: seq<Entry<T>>): (Queue<T>, seq<Entry<T>>) {
    var d := Deliver(q, n - |out|);
    (d.0, out + d.1)
  }

  lemma ResumeOne<T>(q: Queue<T>, n: int, out: seq<Entry<T>>)
    requires q.ready != [] && |out| < n
    ensures Resumed(DeliverOne(q), n, out + [Handed(q.ready[0])]) == Resumed(q, n, out)
  {
    var rest := Deliver(DeliverOne(q), n - |out| - 1).1;
    assert out + ([Handed(q.ready[0])] + rest) == (out + [Handed(q.ready[0])]) + rest;
  }

  // ---------------------------------------------------------------- the queue as the program runs it

  class InProcessQueue<T> {
    const maxsize: int
    var ready: seq<Entry<T>>
    var delayed: seq<Parked<T>>
    var inFlight: map<nat, (T, nat)>
    var next: nat

    function State(): Queue<T>
      reads this
    {
      Queue(maxsize, ready, delayed, inFlight, next)
    }

    ghost predicate Valid()
      reads this
    {
      Sorted(delayed)
    }

    constructor (maxsize: int)
      ensures State() == Empty(maxsize) && Valid()
    {
      this.maxsize := maxsize;
      ready, delayed, inFlight, next := [], [], map[], 0;
    }

    method Send(items: seq<T>) returns (accepted: bool)
      requires Valid()
      modifies this
      ensures Valid() && State() == Sent(old(State()), items)
      ensures accepted <==> items == [] || old(State()).PendingCount() + |items| <= maxsize
    {
      if items == [] {
        return true;
      }
      if |ready| + |delayed| + |inFlight| + |items| > maxsize {
        return false;
      }
      var i := 0;
      while i < |items|
        invariant 0 <= i <= |items|
        invariant delayed == old(delayed) && inFlight == old(inFlight)
        invariant ready + Stamp(items[i..], next) == old(ready) + Stamp(items, old(next))
        invariant next + |items[i..]| == old(next) + |items|
      {
        ready := ready + [Entry(next, items[i], 0)];
        next := next + 1;
        i := i + 1;
        assert items[i - 1..][1..] == items[i..];
      }
      return true;
    }

    method PromoteDue(now: real)
      requires Valid()
      modifies this
      ensures Valid() && State() == Promoted(old(State()), now)
    {
      while delayed != [] && delayed[0].notBefore <= now
        invariant Sorted(delayed) && inFlight == old(inFlight) && next == old(next)
        invariant ready + Due(delayed, now) == old(ready) + Due(old(delayed), now)
        invariant NotDue(delayed, now) == NotDue(old(delayed), now)
        decreases |delayed|
      {
        ready := ready + [delayed[0].entry];
        delayed := delayed[1..];
      }
      HeadDecides(delayed, now);
    }

    method ReceiveNow(maxItems: int, now: real) returns (out: seq<Entry<T>>)
      requires Valid()
      modifies this
      ensures Valid() && (State(), out) == Received(old(State()), maxItems, now)
    {
      PromoteDue(now);
      ghost var q := State();
      out := [];
      assert out + Deliver(q, maxItems).1 == Deliver(q, maxItems).1;
      while ready != [] && |out| < maxItems
        invariant Valid() && Deliver(q, maxItems) == Resumed(State(), maxItems, out)
        decreases |ready|
      {
        ResumeOne(State(), maxItems, out);
        var e := Handed(ready[0]);
        ready := ready[1..];
        inFlight := inFlight[e.receipt := (e.item, e.attempts)];
        out := out + [e];
      }
      assert out + [] == out;
    }

    method Ack(receipt: nat) returns (known: bool)
      requires Valid()
      modifies this
      ensures Valid() && State() == Acked(old(State()), receipt)
      ensures known <==> receipt in old(inFlight)
    {
      known := receipt in inFlight;
      inFlight := inFlight - {receipt};
    }

    method Nack(receipt: nat, delay: real, now: real)
      requires Valid()
      modifies this
      ensures Valid() && State() == Nacked(old(State()), receipt, delay, now)
    {
      if receipt !in inFlight {
        return;
      }
      var (item, attempts) := inFlight[receipt];
      inFlight := inFlight - {receipt};
      delayed := delayed + [Parked(now + Max(delay, 0.0), Entry(receipt, item, attempts))];
      StableSortSorts(delayed);
      delayed := StableSort(delayed);
    }
  }
}

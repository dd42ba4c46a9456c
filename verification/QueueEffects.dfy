/** What each queue call does to the items, said without the functions that compute it
    (apps/api/src/constat_api/collect_queue.py). */
module QueueEffects {
  import opened CollectQueue

  /** The entry is in flight, with its item and attempts, and nowhere else. */
  ghost predicate OnlyInFlight<T>(q: Queue<T>, e: Entry<T>) {
    && e.receipt in q.inFlight && q.inFlight[e.receipt] == (e.item, e.attempts)
    && (forall k :: 0 <= k < |q.ready| ==> q.ready[k].receipt != e.receipt)
    && (forall k :: 0 <= k < |q.delayed| ==> q.delayed[k].entry.receipt != e.receipt)
  }

  /** The delayed list has exactly one entry with this receipt, with this item and these attempts
      and not due before `t`; the receipt is nowhere else. */
  ghost predicate ParkedOnce<T>(q: Queue<T>, e: Entry<T>, t: real) {
    && e.receipt !in q.inFlight
    && (forall k :: 0 <= k < |q.ready| ==> q.ready[k].receipt != e.receipt)
    && multiset(q.delayed)[Parked(t, e)] == 1
    && (forall k :: 0 <= k < |q.delayed| && q.delayed[k].entry.receipt == e.receipt ==> q.delayed[k] == Parked(t, e))
  }

  ghost predicate Nowhere<T>(q: Queue<T>, r: nat) {
    && r !in q.inFlight
    && (forall k :: 0 <= k < |q.ready| ==> q.ready[k].receipt != r)
    && (forall k :: 0 <= k < |q.delayed| ==> q.delayed[k].entry.receipt != r)
  }

  // ---------------------------------------------------------------- ack and nack

  lemma AckForgets<T>(q: Queue<T>, e: Entry<T>)
    requires OnlyInFlight(q, e)
    ensures var v := Acked(q, e.receipt);
      && Nowhere(v, e.receipt) && v.ready == q.ready && v.delayed == q.delayed
      && (forall r :: r in q.inFlight && r != e.receipt ==> r in v.inFlight && v.inFlight[r] == q.inFlight[r])
      && (forall r :: r in v.inFlight ==> r in q.inFlight)
  {
  }

  /** A nack adds one entry to the delayed list, due after the delay, or at once when the delay
      is negative. */
  lemma NackAddsOne<T>(q: Queue<T>, e: Entry<T>, delay: real, now: real, wait: real)
    requires e.receipt in q.inFlight && q.inFlight[e.receipt] == (e.item, e.attempts)
    requires wait == if delay < 0.0 then 0.0 else delay
    ensures multiset(Nacked(q, e.receipt, delay, now).delayed) == multiset(q.delayed) + multiset{Parked(now + wait, e)}
  {
    NackSorts(q, e, delay, now, wait);
    SortAddsOne(q.delayed, Parked(now + wait, e));
  }

  lemma NackSorts<T>(q: Queue<T>, e: Entry<T>, delay: real, now: real, wait: real)
    requires e.receipt in q.inFlight && q.inFlight[e.receipt] == (e.item, e.attempts)
    requires wait == if delay < 0.0 then 0.0 else delay
    ensures Nacked(q, e.receipt, delay, now).delayed == StableSort(q.delayed + [Parked(now + wait, e)])
  {
    assert Max(delay, 0.0) == wait;
    assert Entry(e.receipt, e.item, e.attempts) == e;
  }

  lemma SortAddsOne<T>(d: seq<Parked<T>>, p: Parked<T>)
    ensures multiset(StableSort(d + [p])) == multiset(d) + multiset{p}
  {
    StableSortSorts(d + [p]);
    assert multiset(d + [p]) == multiset(d) + multiset{p};
  }

  lemma NackLands<T>(q: Queue<T>, e: Entry<T>, delay: real, now: real)
    requires OnlyInFlight(q, e)
    ensures var v := Nacked(q, e.receipt, delay, now);
      && v.ready == q.ready
      && (forall r :: r in q.inFlight && r != e.receipt ==> r in v.inFlight && v.inFlight[r] == q.inFlight[r])
      && (forall r :: r in v.inFlight ==> r in q.inFlight && r != e.receipt)
  {
  }

  /** So the item is parked once, and nothing else moves. */
  lemma NackParks<T>(q: Queue<T>, e: Entry<T>, delay: real, now: real, wait: real)
    requires OnlyInFlight(q, e) && wait == if delay < 0.0 then 0.0 else delay
    ensures ParkedOnce(Nacked(q, e.receipt, delay, now), e, now + wait)
    ensures MovesOnly(q, Nacked(q, e.receipt, delay, now), e)
  {
    NackAddsOne(q, e, delay, now, wait);
    NackLands(q, e, delay, now);
    OneMoreParked(q.delayed, Nacked(q, e.receipt, delay, now).delayed, Parked(now + wait, e));
  }

  lemma OneMoreParked<T>(d: seq<Parked<T>>, more: seq<Parked<T>>, p: Parked<T>)
    requires forall k :: 0 <= k < |d| ==> d[k].entry.receipt != p.entry.receipt
    requires multiset(more) == multiset(d) + multiset{p}
    ensures multiset(more)[p] == 1
    ensures forall k :: 0 <= k < |more| && more[k].entry.receipt == p.entry.receipt ==> more[k] == p
  {
    NotThere(d, p);
    forall x | x in multiset(more) ensures x == p || x in d {}
    forall k | 0 <= k < |more| && more[k].entry.receipt == p.entry.receipt ensures more[k] == p {
      assert more[k] in multiset(more);
    }
  }

  lemma NotThere<T>(d: seq<Parked<T>>, p: Parked<T>)
    requires forall k :: 0 <= k < |d| ==> d[k].entry.receipt != p.entry.receipt
    ensures multiset(d)[p] == 0
  {
    forall x | x in d ensures x != p {}
  }

  /** What an ack or a nack of another receipt leaves as it was. */
  ghost predicate MovesOnly<T>(q: Queue<T>, v: Queue<T>, e: Entry<T>) {
    && v.ready == q.ready
    && (v.delayed == q.delayed || exists t :: multiset(v.delayed) == multiset(q.delayed) + multiset{Parked(t, e)})
    && (forall r :: r in q.inFlight && r != e.receipt ==> r in v.inFlight && v.inFlight[r] == q.inFlight[r])
    && (forall r :: r in v.inFlight ==> r in q.inFlight)
  }

  lemma DelayedElsewhere<T>(q: Queue<T>, v: Queue<T>, e: Entry<T>, k: nat)
    requires MovesOnly(q, v, e) && k < |v.delayed| && v.delayed[k].entry.receipt != e.receipt
    ensures v.delayed[k] in q.delayed
  {
    if v.delayed != q.delayed {
      var t :| multiset(v.delayed) == multiset(q.delayed) + multiset{Parked(t, e)};
      assert v.delayed[k] in multiset(v.delayed);
      assert v.delayed[k] in multiset(q.delayed);
    }
  }

  lemma OthersStay<T>(q: Queue<T>, v: Queue<T>, e: Entry<T>, f: Entry<T>, t: real)
    requires MovesOnly(q, v, e) && f.receipt != e.receipt
    ensures OnlyInFlight(q, f) ==> OnlyInFlight(v, f)
    ensures ParkedOnce(q, f, t) ==> ParkedOnce(v, f, t)
    ensures Nowhere(q, f.receipt) ==> Nowhere(v, f.receipt)
  {
    forall k | 0 <= k < |v.delayed| && v.delayed[k].entry.receipt == f.receipt ensures v.delayed[k] in q.delayed {
      DelayedElsewhere(q, v, e, k);
    }
    assert multiset(v.delayed)[Parked(t, f)] == multiset(q.delayed)[Parked(t, f)];
  }

  // ---------------------------------------------------------------- send, promote, deliver

  /** An accepted send appends its items, in order, behind everything that was ready; each has
      the next receipt and no attempt yet. */
  lemma SendAppends<T>(q: Queue<T>, items: seq<T>)
    requires items == [] || |q.ready| + |q.delayed| + |q.inFlight| + |items| <= q.maxsize
    ensures var v := Sent(q, items);
      && |v.ready| == |q.ready| + |items| && v.ready[..|q.ready|] == q.ready
      && (forall k :: 0 <= k < |items| ==> v.ready[|q.ready| + k] == Entry(q.next + k, items[k], 0))
      && v.delayed == q.delayed && v.inFlight == q.inFlight && v.next == q.next + |items|
  {
    forall k | 0 <= k < |items| ensures Stamp(items, q.next)[k] == Entry(q.next + k, items[k], 0) {
      StampedAt(items, q.next, k);
    }
  }

  lemma {:induction false} StampedAt<T>(items: seq<T>, next: nat, k: nat)
    requires k < |items|
    ensures Stamp(items, next)[k] == Entry(next + k, items[k], 0)
    decreases items
  {
    if k > 0 { StampedAt(items[1..], next + 1, k - 1); }
  }

  /** On the sorted list: everything ready stays first; the due entries follow, in the order of
      the delayed list, which is cut where they end. */
  lemma {:induction false} PromotionCuts<T>(d: seq<Parked<T>>, now: real) returns (n: nat)
    requires Sorted(d)
    ensures n <= |d| && (forall k :: 0 <= k < n ==> d[k].notBefore <= now) && (forall k :: n <= k < |d| ==> now < d[k].notBefore)
    ensures |Due(d, now)| == n && (forall k :: 0 <= k < n ==> Due(d, now)[k] == d[k].entry) && NotDue(d, now) == d[n..]
  {
    if d == [] || now < d[0].notBefore {
      n := 0;
      HeadDecides(d, now);
    } else {
      var m := PromotionCuts(d[1..], now);
      n := m + 1;
      assert d[1..][m..] == d[n..];
    }
  }

  lemma PromotionAppends<T>(q: Queue<T>, now: real)
    ensures var v := Promoted(q, now);
      && v.ready[..|q.ready|] == q.ready && v.ready[|q.ready|..] == Due(q.delayed, now)
      && v.inFlight == q.inFlight && v.next == q.next
  {
  }

  /** Everything handed over is in flight with its item and attempts; nothing else entered or
      left flight. */
  lemma {:induction false} DeliveryFlies<T>(q: Queue<T>, n: int)
    requires forall i, j :: 0 <= i < j < |q.ready| ==> q.ready[i].receipt != q.ready[j].receipt
    ensures var (v, out) := Deliver(q, n);
      && (forall i :: 0 <= i < |out| ==> out[i].receipt in v.inFlight && v.inFlight[out[i].receipt] == (out[i].item, out[i].attempts))
      && (forall r :: r in v.inFlight ==> r in q.inFlight || exists i :: 0 <= i < |out| && out[i].receipt == r)
      && (forall r :: r in q.inFlight && (forall i :: 0 <= i < |q.ready| ==> q.ready[i].receipt != r) ==>
            r in v.inFlight && v.inFlight[r] == q.inFlight[r])
    decreases |q.ready|
  {
    if n > 0 && q.ready != [] {
      DeliveryFlies(DeliverOne(q), n - 1);
      OneMoreFlies(q, Deliver(DeliverOne(q), n - 1).0, Deliver(DeliverOne(q), n - 1).1);
    }
  }

  lemma OneMoreFlies<T>(q: Queue<T>, v: Queue<T>, rest: seq<Entry<T>>)
    requires q.ready != [] && forall i, j :: 0 <= i < j < |q.ready| ==> q.ready[i].receipt != q.ready[j].receipt
    requires forall i :: 0 <= i < |rest| ==> rest[i].receipt in v.inFlight && v.inFlight[rest[i].receipt] == (rest[i].item, rest[i].attempts)
    requires forall r :: r in v.inFlight ==> r in DeliverOne(q).inFlight || exists i :: 0 <= i < |rest| && rest[i].receipt == r
    requires forall r :: r in DeliverOne(q).inFlight && (forall i :: 0 <= i < |DeliverOne(q).ready| ==> DeliverOne(q).ready[i].receipt != r) ==>
      r in v.inFlight && v.inFlight[r] == DeliverOne(q).inFlight[r]
    ensures var out := [Handed(q.ready[0])] + rest;
      && (forall i :: 0 <= i < |out| ==> out[i].receipt in v.inFlight && v.inFlight[out[i].receipt] == (out[i].item, out[i].attempts))
      && (forall r :: r in v.inFlight ==> r in q.inFlight || exists i :: 0 <= i < |out| && out[i].receipt == r)
      && (forall r :: r in q.inFlight && (forall i :: 0 <= i < |q.ready| ==> q.ready[i].receipt != r) ==>
            r in v.inFlight && v.inFlight[r] == q.inFlight[r])
  {
    var out := [Handed(q.ready[0])] + rest;
    forall i | 0 <= i < |DeliverOne(q).ready| ensures DeliverOne(q).ready[i] == q.ready[i + 1] {}
    forall r | r in v.inFlight && r !in q.inFlight ensures exists i :: 0 <= i < |out| && out[i].receipt == r {
      if r in DeliverOne(q).inFlight {
        assert out[0].receipt == r;
      } else {
        var i :| 0 <= i < |rest| && rest[i].receipt == r;
        assert out[i + 1].receipt == r;
      }
    }
  }

  /** A receive hands over the ready items and behind them those whose time has come, first come
      first, as many as it may, each with one more attempt; what it does not hand over waits in
      that order, and the rest of the delayed list stays. */
  lemma ReceiveIsExact<T>(q: Queue<T>, n: int, now: real) returns (m: nat, waiting: seq<Entry<T>>)
    requires Sorted(q.delayed)
    ensures m <= |q.delayed| && (forall k :: 0 <= k < m ==> q.delayed[k].notBefore <= now)
    ensures forall k :: m <= k < |q.delayed| ==> now < q.delayed[k].notBefore
    ensures |waiting| == |q.ready| + m && waiting[..|q.ready|] == q.ready
    ensures forall k :: 0 <= k < m ==> waiting[|q.ready| + k] == q.delayed[k].entry
    ensures var (v, out) := Received(q, n, now);
      && |out| == (if n < 0 then 0 else if n < |waiting| then n else |waiting|)
      && (forall k :: 0 <= k < |out| ==> out[k] == Entry(waiting[k].receipt, waiting[k].item, waiting[k].attempts + 1))
      && v.ready == waiting[|out|..] && v.delayed == q.delayed[m..]
  {
    m := PromotionCuts(q.delayed, now);
    waiting := Promoted(q, now).ready;
    DeliverIsFifo(Promoted(q, now), n);
  }

  // ---------------------------------------------------------------- one place per receipt

  /** No receipt is in two places. */
  ghost predicate UniqueReceipts<T>(q: Queue<T>) {
    && (forall i, j :: 0 <= i < j < |q.ready| ==> q.ready[i].receipt != q.ready[j].receipt)
    && (forall i, j :: 0 <= i < j < |q.delayed| ==> q.delayed[i].entry.receipt != q.delayed[j].entry.receipt)
    && (forall i, j :: 0 <= i < |q.ready| && 0 <= j < |q.delayed| ==> q.ready[i].receipt != q.delayed[j].entry.receipt)
    && (forall i :: 0 <= i < |q.ready| ==> q.ready[i].receipt !in q.inFlight)
    && (forall i :: 0 <= i < |q.delayed| ==> q.delayed[i].entry.receipt !in q.inFlight)
  }

  lemma PromotionStaysUnique<T>(q: Queue<T>, now: real)
    requires UniqueReceipts(q) && Sorted(q.delayed)
    ensures UniqueReceipts(Promoted(q, now))
  {
    var v := Promoted(q, now);
    var n := PromotionCuts(q.delayed, now);
    forall k | 0 <= k < |v.delayed| ensures v.delayed[k] == q.delayed[n + k] {}
    forall k | 0 <= k < |v.ready|
      ensures v.ready[k] == if k < |q.ready| then q.ready[k] else q.delayed[k - |q.ready|].entry
    {
    }
  }

  /** What a receive hands over is in flight and nowhere else, each under its own receipt. */
  lemma ReceivedFliesOnly<T>(q: Queue<T>, n: int, now: real)
    requires UniqueReceipts(q) && Sorted(q.delayed)
    ensures var (v, out) := Received(q, n, now);
      && (forall i :: 0 <= i < |out| ==> OnlyInFlight(v, out[i]))
      && (forall i, j :: 0 <= i < j < |out| ==> out[i].receipt != out[j].receipt)
  {
    var u := Promoted(q, now);
    PromotionStaysUnique(q, now);
    DeliveryFlies(u, n);
    DeliverIsFifo(u, n);
    var (v, out) := Deliver(u, n);
    forall i | 0 <= i < |out| ensures OnlyInFlight(v, out[i]) {
      assert out[i].receipt == u.ready[i].receipt;
    }
  }
}

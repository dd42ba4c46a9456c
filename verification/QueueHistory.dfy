/** Every run of the collect queue: where each accepted item is, how often it was
    delivered, and when (apps/api/src/constat_api/collect_queue.py). */
module QueueHistory {
  import opened Wrappers
  import opened CollectQueue

  /** What happened so far: the item accepted under each receipt, how often the receipt was
      handed to a worker, until when the last nack deferred it, and which receipts were acked. */
  datatype Ledger<T> = Ledger(sent: map<nat, T>, deliveries: map<nat, nat>, due: map<nat, real>, acked: set<nat>)
  {
    function Delivered(receipt: nat): nat { if receipt in deliveries then deliveries[receipt] else 0 }
  }

  datatype World<T> = World(q: Queue<T>, book: Ledger<T>, clock: real)

  datatype Op<T> =
    | Send(items: seq<T>)
    | Receive(maxItems: int)
    | Ack(receipt: nat)
    | Nack(receipt: nat, delay: real)
    | Tick(elapsed: real)

  function Fresh<T>(maxsize: int, clock: real): World<T> {
    World(Empty(maxsize), Ledger(map[], map[], map[], {}), clock)
  }

  function Stamped<T>(sent: map<nat, T>, items: seq<T>, next: nat): map<nat, T>
    decreases items
  {
    if items == [] then sent else Stamped(sent[next := items[0]], items[1..], next + 1)
  }

  function Recorded<T>(book: Ledger<T>, out: seq<Entry<T>>): Ledger<T>
    decreases out
  {
    if out == [] then book
    else Recorded(book.(deliveries := book.deliveries[out[0].receipt := book.Delivered(out[0].receipt) + 1]), out[1..])
  }

  function Step<T>(w: World<T>, op: Op<T>): World<T> {
    match op
    case Send(items) =>
      if Refuses(w.q, items) then w
      else w.(q := Sent(w.q, items), book := w.book.(sent := Stamped(w.book.sent, items, w.q.next)))
    case Receive(maxItems) =>
      var (q, out) := Received(w.q, maxItems, w.clock);
      w.(q := q, book := Recorded(w.book, out))
    case Ack(receipt) =>
      if receipt !in w.q.inFlight then w
      else w.(q := Acked(w.q, receipt), book := w.book.(acked := w.book.acked + {receipt}))
    case Nack(receipt, delay) =>
      if receipt !in w.q.inFlight then w
      else w.(q := Nacked(w.q, receipt, delay, w.clock),
              book := w.book.(due := w.book.due[receipt := w.clock + Max(delay, 0.0)]))
    case Tick(elapsed) => w.(clock := w.clock + Max(elapsed, 0.0))
  }

  function Run<T>(w: World<T>, ops: seq<Op<T>>): World<T>
    decreases ops
  {
    if ops == [] then w else Run(Step(w, ops[0]), ops[1..])
  }

  // ---------------------------------------------------------------- the invariant

  function Count<T>(s: seq<Entry<T>>, r: nat): nat {
    if s == [] then 0 else Bit(s[0].receipt == r) + Count(s[1..], r)
  }

  function CountParked<T>(d: seq<Parked<T>>, r: nat): nat {
    if d == [] then 0 else Bit(d[0].entry.receipt == r) + CountParked(d[1..], r)
  }

  /** How many times the queue still owes receipt `r` to a worker. */
  function Owed<T>(q: Queue<T>, r: nat): nat {
    Count(q.ready, r) + CountParked(q.delayed, r) + Bit(r in q.inFlight)
  }

  ghost predicate Faithful<T>(e: Entry<T>, book: Ledger<T>) {
    e.receipt in book.sent && book.sent[e.receipt] == e.item && e.attempts == book.Delivered(e.receipt)
  }

  ghost predicate NotEarly<T>(receipt: nat, book: Ledger<T>, clock: real) {
    receipt in book.due ==> book.due[receipt] <= clock
  }

  ghost predicate ReadyOk<T>(s: seq<Entry<T>>, book: Ledger<T>, clock: real) {
    forall i :: 0 <= i < |s| ==> Faithful(s[i], book) && NotEarly(s[i].receipt, book, clock)
  }

  ghost predicate ParkedOk<T>(d: seq<Parked<T>>, book: Ledger<T>) {
    forall i :: 0 <= i < |d| ==>
      Faithful(d[i].entry, book) && d[i].entry.receipt in book.due && book.due[d[i].entry.receipt] == d[i].notBefore
  }

  ghost predicate FlightOk<T>(inFlight: map<nat, (T, nat)>, book: Ledger<T>, clock: real) {
    forall r :: r in inFlight ==>
      Faithful(Entry(r, inFlight[r].0, inFlight[r].1), book) && NotEarly(r, book, clock)
  }

  /** Every receipt ever issued is in exactly one place: ready, delayed, in flight or acked.
      none is lost and none occurs twice. */
  ghost predicate Conserved<T>(w: World<T>) {
    && (forall r: nat :: Owed(w.q, r) + Bit(r in w.book.acked) == Bit(r < w.q.next))
    && (forall r: nat :: r in w.book.sent <==> r < w.q.next)
    && w.book.deliveries.Keys <= w.book.sent.Keys && w.book.due.Keys <= w.book.sent.Keys
  }

  ghost predicate Inv<T>(w: World<T>) {
    && Conserved(w)
    && ReadyOk(w.q.ready, w.book, w.clock)
    && ParkedOk(w.q.delayed, w.book)
    && FlightOk(w.q.inFlight, w.book, w.clock)
    && Sorted(w.q.delayed)
    && w.q.PendingCount() <= if w.q.maxsize < 0 then 0 else w.q.maxsize
  }

  // ---------------------------------------------------------------- facts about receipts

  lemma {:induction false} CountMember<T>(s: seq<Entry<T>>, i: nat)
    requires i < |s|
    ensures Count(s, s[i].receipt) > 0
  {
    if i > 0 {
      assert s[1..][i - 1] == s[i];
      CountMember(s[1..], i - 1);
    }
  }

  lemma {:induction false} ParkedMember<T>(d: seq<Parked<T>>, i: nat)
    requires i < |d|
    ensures CountParked(d, d[i].entry.receipt) > 0
  {
    if i > 0 {
      assert d[1..][i - 1] == d[i];
      ParkedMember(d[1..], i - 1);
    }
  }

  lemma {:induction false} CountConcat<T>(a: seq<Entry<T>>, b: seq<Entry<T>>, r: nat)
    ensures Count(a + b, r) == Count(a, r) + Count(b, r)
  {
    if a == [] {
      assert a + b == b;
    } else {
      CountConcat(a[1..], b, r);
      assert (a + b)[1..] == a[1..] + b;
    }
  }

  /** A receipt in flight is in no list: the entries there all carry other receipts. */
  lemma FlightIsApart<T>(w: World<T>, r: nat)
    requires Conserved(w) && r in w.q.inFlight
    ensures r < w.q.next && r !in w.book.acked
    ensures forall i :: 0 <= i < |w.q.ready| ==> w.q.ready[i].receipt != r
    ensures forall i :: 0 <= i < |w.q.delayed| ==> w.q.delayed[i].entry.receipt != r
  {
    assert Owed(w.q, r) + Bit(r in w.book.acked) == Bit(r < w.q.next);
    forall i | 0 <= i < |w.q.ready| ensures w.q.ready[i].receipt != r {
      CountMember(w.q.ready, i);
    }
    forall i | 0 <= i < |w.q.delayed| ensures w.q.delayed[i].entry.receipt != r {
      ParkedMember(w.q.delayed, i);
    }
  }

  /** The head of the ready list carries a receipt that occurs nowhere else. */
  lemma HeadIsApart<T>(w: World<T>)
    requires Conserved(w) && w.q.ready != []
    ensures var r := w.q.ready[0].receipt;
      && r !in w.q.inFlight
      && (forall i :: 0 < i < |w.q.ready| ==> w.q.ready[i].receipt != r)
      && (forall i :: 0 <= i < |w.q.delayed| ==> w.q.delayed[i].entry.receipt != r)
  {
    var r := w.q.ready[0].receipt;
    assert Owed(w.q, r) + Bit(r in w.book.acked) == Bit(r < w.q.next);
    forall i | 0 < i < |w.q.ready| ensures w.q.ready[i].receipt != r {
      assert w.q.ready[1..][i - 1] == w.q.ready[i];
      CountMember(w.q.ready[1..], i - 1);
    }
    forall i | 0 <= i < |w.q.delayed| ensures w.q.delayed[i].entry.receipt != r {
      ParkedMember(w.q.delayed, i);
    }
  }

  // ---------------------------------------------------------------- one step keeps the invariant

  lemma {:induction false} StampedKeys<T>(sent: map<nat, T>, items: seq<T>, next: nat)
    ensures forall r :: r in Stamped(sent, items, next) <==> r in sent || next <= r < next + |items|
    ensures forall r :: r in sent && r < next ==> Stamped(sent, items, next)[r] == sent[r]
    decreases items
  {
    if items != [] {
      StampedKeys(sent[next := items[0]], items[1..], next + 1);
    }
  }

  lemma {:induction false} StampAt<T>(sent: map<nat, T>, items: seq<T>, next: nat, i: nat)
    requires i < |items|
    ensures Stamp(items, next)[i] == Entry(next + i, items[i], 0)
    ensures next + i in Stamped(sent, items, next) && Stamped(sent, items, next)[next + i] == items[i]
    decreases items
  {
    var more := sent[next := items[0]];
    StampedKeys(more, items[1..], next + 1);
    if i > 0 {
      StampAt(more, items[1..], next + 1, i - 1);
    }
  }

  lemma {:induction false} StampCount<T>(items: seq<T>, next: nat, r: nat)
    ensures Count(Stamp(items, next), r) == Bit(next <= r < next + |items|)
  {
    if items != [] {
      StampCount(items[1..], next + 1, r);
    }
  }

  lemma SendConserves<T>(w: World<T>, items: seq<T>)
    requires Conserved(w) && !Refuses(w.q, items)
    ensures Conserved(Step(w, Send(items)))
  {
    var v := Step(w, Send(items));
    StampedKeys(w.book.sent, items, w.q.next);
    forall r: nat ensures Owed(v.q, r) + Bit(r in v.book.acked) == Bit(r < v.q.next) {
      assert Owed(w.q, r) + Bit(r in w.book.acked) == Bit(r < w.q.next);
      CountConcat(w.q.ready, Stamp(items, w.q.next), r);
      StampCount(items, w.q.next, r);
    }
  }

  lemma SendReadyOk<T>(w: World<T>, items: seq<T>)
    requires Conserved(w) && ReadyOk(w.q.ready, w.book, w.clock) && !Refuses(w.q, items)
    ensures var v := Step(w, Send(items)); ReadyOk(v.q.ready, v.book, v.clock)
  {
    var v := Step(w, Send(items));
    StampedKeys(w.book.sent, items, w.q.next);
    forall i | 0 <= i < |v.q.ready|
      ensures Faithful(v.q.ready[i], v.book) && NotEarly(v.q.ready[i].receipt, v.book, v.clock)
    {
      if i >= |w.q.ready| {
        StampAt(w.book.sent, items, w.q.next, i - |w.q.ready|);
        assert v.q.ready[i].receipt !in w.book.sent;
      } else {
        assert v.q.ready[i] == w.q.ready[i] && Faithful(w.q.ready[i], w.book);
      }
    }
  }

  lemma SendKeeps<T>(w: World<T>, items: seq<T>)
    requires Inv(w) && !Refuses(w.q, items)
    ensures Inv(Step(w, Send(items)))
  {
    SendConserves(w, items);
    SendReadyOk(w, items);
    StampedKeys(w.book.sent, items, w.q.next);
  }

  /** Promotion only moves due entries from one list to the other. */
  lemma {:induction false} PromoteParts<T>(d: seq<Parked<T>>, book: Ledger<T>, now: real)
    requires ParkedOk(d, book)
    ensures ReadyOk(Due(d, now), book, now) && ParkedOk(NotDue(d, now), book)
    ensures |Due(d, now)| + |NotDue(d, now)| == |d|
  {
    if d != [] {
      PromoteParts(d[1..], book, now);
    }
  }

  lemma {:induction false} PromoteCount<T>(d: seq<Parked<T>>, now: real, r: nat)
    ensures Count(Due(d, now), r) + CountParked(NotDue(d, now), r) == CountParked(d, r)
  {
    if d != [] {
      PromoteCount(d[1..], now, r);
      if d[0].notBefore <= now {
        assert Due(d, now)[1..] == Due(d[1..], now);
        assert NotDue(d, now) == NotDue(d[1..], now);
      } else {
        assert NotDue(d, now)[1..] == NotDue(d[1..], now);
        assert Due(d, now) == Due(d[1..], now);
      }
    }
  }

  lemma PromoteKeeps<T>(w: World<T>)
    requires Inv(w)
    ensures Inv(w.(q := Promoted(w.q, w.clock)))
  {
    var v := w.(q := Promoted(w.q, w.clock));
    PromoteParts(w.q.delayed, w.book, w.clock);
    forall r: nat ensures Owed(v.q, r) == Owed(w.q, r) {
      CountConcat(w.q.ready, Due(w.q.delayed, w.clock), r);
      PromoteCount(w.q.delayed, w.clock, r);
    }
    if w.q.delayed != [] {
      NotDueSorted(w.q.delayed, w.clock, w.q.delayed[0].notBefore);
    }
  }

  function Noted<T>(book: Ledger<T>, r: nat): Ledger<T> {
    book.(deliveries := book.deliveries[r := book.Delivered(r) + 1])
  }

  lemma DeliverOneKeeps<T>(w: World<T>)
    requires Inv(w) && w.q.ready != []
    ensures Inv(World(DeliverOne(w.q), Noted(w.book, w.q.ready[0].receipt), w.clock))
  {
    var e := w.q.ready[0];
    var v := World(DeliverOne(w.q), Noted(w.book, e.receipt), w.clock);
    HeadIsApart(w);
    forall r: nat ensures Owed(v.q, r) == Owed(w.q, r) {}
    forall i | 0 <= i < |v.q.ready|
      ensures Faithful(v.q.ready[i], v.book) && NotEarly(v.q.ready[i].receipt, v.book, v.clock)
    {
      assert v.q.ready[i] == w.q.ready[i + 1];
    }
  }

  lemma RecordedFirst<T>(book: Ledger<T>, e: Entry<T>, rest: seq<Entry<T>>)
    ensures Recorded(book, [e] + rest) == Recorded(Noted(book, e.receipt), rest)
  {
    assert ([e] + rest)[1..] == rest;
  }

  /** The world after delivering up to `n` ready items. */
  function AfterDelivery<T>(w: World<T>, n: int): World<T> {
    var (q, out) := Deliver(w.q, n);
    World(q, Recorded(w.book, out), w.clock)
  }

  lemma DeliveryInSteps<T>(w: World<T>, n: int)
    ensures AfterDelivery(w, n) ==
      if n <= 0 || w.q.ready == [] then w
      else AfterDelivery(World(DeliverOne(w.q), Noted(w.book, w.q.ready[0].receipt), w.clock), n - 1)
  {
    if n > 0 && w.q.ready != [] {
      RecordedFirst(w.book, Handed(w.q.ready[0]), Deliver(DeliverOne(w.q), n - 1).1);
    }
  }

  lemma {:induction false} DeliverKeeps<T>(w: World<T>, n: int)
    requires Inv(w)
    ensures Inv(AfterDelivery(w, n))
    decreases |w.q.ready|
  {
    DeliveryInSteps(w, n);
    if n > 0 && w.q.ready != [] {
      DeliverOneKeeps(w);
      DeliverKeeps(World(DeliverOne(w.q), Noted(w.book, w.q.ready[0].receipt), w.clock), n - 1);
    }
  }

  lemma AckConserves<T>(w: World<T>, receipt: nat)
    requires Conserved(w) && receipt in w.q.inFlight
    ensures Conserved(Step(w, Ack(receipt)))
  {
    var v := Step(w, Ack(receipt));
    FlightIsApart(w, receipt);
    forall r: nat ensures Owed(v.q, r) + Bit(r in v.book.acked) == Owed(w.q, r) + Bit(r in w.book.acked) {}
  }

  lemma AckKeeps<T>(w: World<T>, receipt: nat)
    requires Inv(w)
    ensures Inv(Step(w, Ack(receipt)))
  {
    if receipt in w.q.inFlight {
      AckConserves(w, receipt);
      InFlightShrinks(w.q.inFlight, receipt);
      var v := Step(w, Ack(receipt));
      assert ReadyOk(v.q.ready, v.book, v.clock) by {
        forall i | 0 <= i < |v.q.ready| ensures Faithful(v.q.ready[i], v.book) && NotEarly(v.q.ready[i].receipt, v.book, v.clock) {
          assert Faithful(w.q.ready[i], w.book) && NotEarly(w.q.ready[i].receipt, w.book, w.clock);
        }
      }
    }
  }

  lemma {:induction false} InsertParts<T>(d: seq<Parked<T>>, p: Parked<T>, book: Ledger<T>)
    requires ParkedOk(d, book) && ParkedOk([p], book)
    ensures ParkedOk(Insert(d, p), book) && |Insert(d, p)| == |d| + 1
  {
    if d != [] && d[0].notBefore <= p.notBefore {
      InsertParts(d[1..], p, book);
    }
  }

  lemma {:induction false} InsertCount<T>(d: seq<Parked<T>>, p: Parked<T>, r: nat)
    ensures CountParked(Insert(d, p), r) == CountParked(d, r) + Bit(p.entry.receipt == r)
  {
    if d != [] && d[0].notBefore <= p.notBefore {
      InsertCount(d[1..], p, r);
      assert Insert(d, p)[1..] == Insert(d[1..], p);
    } else {
      assert Insert(d, p)[1..] == d;
    }
  }

  lemma NackConserves<T>(w: World<T>, receipt: nat, delay: real)
    requires Conserved(w) && Sorted(w.q.delayed) && receipt in w.q.inFlight
    ensures Conserved(Step(w, Nack(receipt, delay)))
  {
    var v := Step(w, Nack(receipt, delay));
    var p := Parked(w.clock + Max(delay, 0.0), Entry(receipt, w.q.inFlight[receipt].0, w.q.inFlight[receipt].1));
    FlightIsApart(w, receipt);
    NackIsInsert(w, receipt, delay);
    forall r: nat ensures Owed(v.q, r) == Owed(w.q, r) {
      InsertCount(w.q.delayed, p, r);
    }
  }

  /** Deferring one receipt says nothing about the entries that carry other receipts. */
  lemma DeferElsewhere<T>(w: World<T>, receipt: nat, until: real)
    requires Inv(w) && receipt in w.q.inFlight
    ensures var book := w.book.(due := w.book.due[receipt := until]);
      && ReadyOk(w.q.ready, book, w.clock) && ParkedOk(w.q.delayed, book)
      && FlightOk(w.q.inFlight - {receipt}, book, w.clock)
  {
    FlightIsApart(w, receipt);
    var book := w.book.(due := w.book.due[receipt := until]);
    forall i | 0 <= i < |w.q.ready|
      ensures Faithful(w.q.ready[i], book) && NotEarly(w.q.ready[i].receipt, book, w.clock)
    {
      assert Faithful(w.q.ready[i], w.book) && NotEarly(w.q.ready[i].receipt, w.book, w.clock);
    }
    forall r | r in w.q.inFlight - {receipt}
      ensures Faithful(Entry(r, w.q.inFlight[r].0, w.q.inFlight[r].1), book) && NotEarly(r, book, w.clock)
    {
      assert Faithful(Entry(r, w.q.inFlight[r].0, w.q.inFlight[r].1), w.book) && NotEarly(r, w.book, w.clock);
    }
  }

  lemma NackIsInsert<T>(w: World<T>, receipt: nat, delay: real)
    requires Sorted(w.q.delayed) && receipt in w.q.inFlight
    ensures var p := Parked(w.clock + Max(delay, 0.0), Entry(receipt, w.q.inFlight[receipt].0, w.q.inFlight[receipt].1));
      Step(w, Nack(receipt, delay)) == World(
        w.q.(delayed := Insert(w.q.delayed, p), inFlight := w.q.inFlight - {receipt}),
        w.book.(due := w.book.due[receipt := p.notBefore]), w.clock)
  {
    NackOnlyInserts(w.q.delayed, Parked(w.clock + Max(delay, 0.0), Entry(receipt, w.q.inFlight[receipt].0, w.q.inFlight[receipt].1)));
  }

  lemma InFlightShrinks<T>(m: map<nat, T>, r: nat)
    requires r in m
    ensures |m - {r}| == |m| - 1
  {
    assert (m - {r})[r := m[r]] == m;
  }

  lemma NackKeeps<T>(w: World<T>, receipt: nat, delay: real)
    requires Inv(w) && receipt in w.q.inFlight
    ensures Inv(Step(w, Nack(receipt, delay)))
  {
    var p := Parked(w.clock + Max(delay, 0.0), Entry(receipt, w.q.inFlight[receipt].0, w.q.inFlight[receipt].1));
    NackConserves(w, receipt, delay);
    NackIsInsert(w, receipt, delay);
    assert Faithful(p.entry, w.book);
    DeferElsewhere(w, receipt, p.notBefore);
    InsertKeepsSorted(w.q.delayed, p);
    InsertParts(w.q.delayed, p, w.book.(due := w.book.due[receipt := p.notBefore]));
    InFlightShrinks(w.q.inFlight, receipt);
  }

  /** One call, or the passing of time, keeps the invariant. */
  lemma StepKeeps<T>(w: World<T>, op: Op<T>)
    requires Inv(w)
    ensures Inv(Step(w, op)) && w.clock <= Step(w, op).clock
  {
    match op
    case Send(items) =>
      if !Refuses(w.q, items) { SendKeeps(w, items); }
    case Receive(maxItems) =>
      PromoteKeeps(w);
      DeliverKeeps(w.(q := Promoted(w.q, w.clock)), maxItems);
    case Ack(receipt) => AckKeeps(w, receipt);
    case Nack(receipt, delay) =>
      if receipt in w.q.inFlight { NackKeeps(w, receipt, delay); }
    case Tick(elapsed) =>
  }

  /** In every run from an empty queue: each accepted item is in exactly one of ready,
      delayed, in flight and acked; receipts stay distinct; the pending items never exceed
      the capacity; attempts count deliveries; nothing is ready before its time. */
  lemma {:induction false} RunKeeps<T>(maxsize: int, clock: real, ops: seq<Op<T>>)
    ensures Inv(Run(Fresh(maxsize, clock), ops))
  {
    assert Inv(Fresh<T>(maxsize, clock));
    RunKeepsFrom(Fresh(maxsize, clock), ops);
  }

  lemma {:induction false} RunKeepsFrom<T>(w: World<T>, ops: seq<Op<T>>)
    requires Inv(w)
    ensures Inv(Run(w, ops))
    decreases ops
  {
    if ops != [] {
      StepKeeps(w, ops[0]);
      RunKeepsFrom(Step(w, ops[0]), ops[1..]);
    }
  }

  // ---------------------------------------------------------------- what a caller can rely on

  /** The only call that takes an item away is the ack of a receipt in flight, and it takes
      exactly that one; only an accepted send adds, and only new receipts; a refused send
      changes nothing at all. */
  lemma OnlyAckRemoves<T>(w: World<T>, op: Op<T>, r: nat)
    requires Inv(w)
    ensures var v := Step(w, op);
      && (Owed(v.q, r) < Owed(w.q, r) <==> op == Ack(r) && r in w.q.inFlight)
      && (Owed(v.q, r) > Owed(w.q, r) <==>
            op.Send? && !Refuses(w.q, op.items) && w.q.next <= r < w.q.next + |op.items|)
      && (op.Send? && Refuses(w.q, op.items) ==> v == w)
  {
    var v := Step(w, op);
    StepKeeps(w, op);
    assert Owed(w.q, r) + Bit(r in w.book.acked) == Bit(r < w.q.next);
    assert Owed(v.q, r) + Bit(r in v.book.acked) == Bit(r < v.q.next);
    match op {
      case Receive(n) =>
        DeliverNext(Promoted(w.q, w.clock), n);
        RecordedSame(w.book, Received(w.q, n, w.clock).1);
      case Ack(x) =>
        if x in w.q.inFlight { FlightIsApart(w, x); }
      case _ =>
    }
  }

  lemma {:induction false} DeliverNext<T>(q: Queue<T>, n: int)
    ensures Deliver(q, n).0.next == q.next
    decreases |q.ready|
  {
    if n > 0 && q.ready != [] {
      DeliverNext(DeliverOne(q), n - 1);
    }
  }

  lemma {:induction false} RecordedSame<T>(book: Ledger<T>, out: seq<Entry<T>>)
    ensures var r := Recorded(book, out); r.sent == book.sent && r.due == book.due && r.acked == book.acked
    decreases out
  {
    if out != [] {
      RecordedSame(Noted(book, out[0].receipt), out[1..]);
    }
  }

  /** What a receive hands over: never before its not-before time, with the item that was
      accepted under the receipt, numbered one past the deliveries made so far. */
  lemma DeliveredOnTime<T>(w: World<T>, maxItems: int)
    requires Inv(w)
    ensures var out := Received(w.q, maxItems, w.clock).1;
      forall i :: 0 <= i < |out| ==>
        && NotEarly(out[i].receipt, w.book, w.clock)
        && out[i].receipt in w.book.sent && out[i].item == w.book.sent[out[i].receipt]
        && out[i].attempts == w.book.Delivered(out[i].receipt) + 1
  {
    PromoteKeeps(w);
    var q := Promoted(w.q, w.clock);
    DeliverIsFifo(q, maxItems);
    var out := Received(w.q, maxItems, w.clock).1;
    forall i | 0 <= i < |out|
      ensures NotEarly(out[i].receipt, w.book, w.clock) && Faithful(q.ready[i], w.book) && out[i] == Handed(q.ready[i])
    {
      assert Faithful(q.ready[i], w.book) && NotEarly(q.ready[i].receipt, w.book, w.clock);
    }
  }
}

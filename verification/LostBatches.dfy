/** What a raising job lookup costs: the batch it cuts short stays in flight for good
    (`drain_once` and `_job_exists` in apps/api/src/constat_api/worker.py). */
module LostBatches {
  import opened Wrappers
  import opened CollectQueue
  import opened CollectWorker
  import opened QueueHistory
  import opened CollectProtocol

  /** A job lookup raises: the move is taken in its turn. */
  predicate Raises(p: Pool, a: Action) {
    a.At? && a.move.LookUpRaises? && a.i < |p.workers| && Turn(p.workers[a.i], a.move)
  }

  ghost predicate NeverRaises(p: Pool, actions: seq<Action>)
    decreases actions
  {
    actions == [] || (!Raises(p, actions[0]) && NeverRaises(Apply(p, actions[0]), actions[1..]))
  }

  /** Every item of the batch not settled yet, the one looked up included, is lost. */
  lemma RaiseLosesTheBatch(p: Pool, a: Action)
    requires Reachable(p) && Raises(p, a)
    ensures forall k :: 0 <= k < |p.workers[a.i].rest| ==>
      p.workers[a.i].rest[k].receipt in Apply(p, a).lost && p.workers[a.i].rest[k].receipt !in p.lost
  {
    ReachableOk(p);
    var rest := p.workers[a.i].rest;
    forall k | 0 <= k < |rest| ensures rest[k].receipt in Apply(p, a).lost && rest[k].receipt !in p.lost {
      CountMember(rest, k);
      HeldIsInFlight(p.w, p.workers, p.lost, a.i, rest[k].receipt);
    }
  }

  lemma LostStays(p: Pool, a: Action)
    ensures p.lost <= Apply(p, a).lost
    ensures !Raises(p, a) ==> Apply(p, a).lost == p.lost
  {
  }

  lemma {:induction false} LostStaysLost(p: Pool, actions: seq<Action>)
    ensures p.lost <= Schedule(p, actions).lost
    decreases actions
  {
    if actions != [] {
      LostStays(p, actions[0]);
      LostStaysLost(Apply(p, actions[0]), actions[1..]);
    }
  }

  lemma {:induction false} NothingLostWithoutARaise(p: Pool, actions: seq<Action>)
    requires NeverRaises(p, actions)
    ensures Schedule(p, actions).lost == p.lost
    decreases actions
  {
    if actions != [] {
      LostStays(p, actions[0]);
      NothingLostWithoutARaise(Apply(p, actions[0]), actions[1..]);
    }
  }

  /** Over any stretch of any schedule something is lost exactly when some lookup raised. */
  lemma {:induction false} LostExactlyByRaises(p: Pool, actions: seq<Action>)
    requires Reachable(p)
    ensures Schedule(p, actions).lost == p.lost <==> NeverRaises(p, actions)
    decreases actions
  {
    if NeverRaises(p, actions) {
      NothingLostWithoutARaise(p, actions);
    } else {
      var v := Apply(p, actions[0]);
      LostStays(p, actions[0]);
      LostStaysLost(v, actions[1..]);
      if Raises(p, actions[0]) {
        RaiseLosesTheBatch(p, actions[0]);
        assert p.workers[actions[0].i].rest[0].receipt in v.lost;
      } else {
        ReachableStep(p, actions[0]);
        LostExactlyByRaises(v, actions[1..]);
      }
    }
  }

  /** What is lost stays in flight, held by nobody: it takes queue capacity for good. */
  lemma LostTakesCapacityForGood(p: Pool, actions: seq<Action>, r: nat, i: nat)
    requires Reachable(p) && r in p.lost
    ensures var v := Schedule(p, actions);
      && r in v.w.q.inFlight && r !in v.w.book.acked
      && (i < |v.workers| ==> Held(v.workers[i], r) == 0)
      && |p.lost| <= v.w.q.PendingCount()
  {
    var v := Schedule(p, actions);
    ReachableRun(p, actions);
    ReachableOk(v);
    LostStaysLost(p, actions);
    forall x: nat | x in v.lost ensures x in v.w.q.inFlight {
      assert Bit(x in v.w.q.inFlight) == HeldBy(v.workers, x) + Bit(x in v.lost);
    }
    assert Bit(r in v.w.q.inFlight) == HeldBy(v.workers, r) + Bit(r in v.lost);
    if i < |v.workers| { HeldAtLeast(v.workers, i, r); }
    if r in v.w.book.acked { AckedIsNotInFlight(v.w, r); }
    Within(p.lost, v.w.q.inFlight.Keys);
  }

  lemma {:induction false} Within(a: set<nat>, b: set<nat>)
    requires a <= b
    ensures |a| <= |b|
  {
    assert b == a + (b - a);
  }
}

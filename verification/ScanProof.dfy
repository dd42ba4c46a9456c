/** Scan completeness and retirement: source runs, resources, and the region job that writes
    both. Sources: apps/api/src/constat_api/repositories/source_runs.py, resources.py and
    collectors/aws.py (`_run_region_job`). */
module ScanProof {
  import opened Wrappers

  /** What a scan covers, apart from its source. */
  datatype Scope = Scope(account: string, region: string, resourceType: string)

  datatype RunStatus = Running | Success | Failed | Partial

  datatype SourceRun = SourceRun(
    scope: Scope,
    source: string,
    startedAt: real,
    finishedAt: Option<real>,
    status: RunStatus,
    resourcesFound: Option<nat>)

  /** The natural key of a resource. */
  datatype Key = Key(scope: Scope, nativeId: string)

  datatype Resource = Resource(firstSeenAt: real, lastSeenAt: real, retiredAt: Option<real>)

  const CONSECUTIVE_SCANS_FOR_RETIREMENT: nat := 2

  // ---------------------------------------------------------------- one database call, one function

  predicate IsActive(r: SourceRun, scope: Scope, source: string) {
    r.scope == scope && r.source == source && r.status == Running
  }

  function Aborted(runs: seq<SourceRun>, scope: Scope, source: string, now: real): (r: seq<SourceRun>)
    ensures |r| == |runs|
  {
    seq(|runs|, k requires 0 <= k < |runs| =>
      if IsActive(runs[k], scope, source) then runs[k].(status := Failed, finishedAt := Some(now)) else runs[k])
  }

  predicate HasActive(runs: seq<SourceRun>, scope: Scope, source: string) {
    exists k :: 0 <= k < |runs| && IsActive(runs[k], scope, source)
  }

  /** The partial unique index refuses a second running run of a scope; `force` clears it first. */
  function Started(runs: seq<SourceRun>, scope: Scope, source: string, force: bool, now: real)
    : (r: (seq<SourceRun>, Option<nat>))
  {
    var base := if force then Aborted(runs, scope, source, now) else runs;
    if HasActive(base, scope, source) then (base, None)
    else (base + [SourceRun(scope, source, now, None, Running, None)], Some(|base|))
  }

  function Finished(runs: seq<SourceRun>, k: nat, status: RunStatus, found: Option<nat>, now: real): seq<SourceRun>
    requires k < |runs|
  {
    runs[k := runs[k].(status := status, finishedAt := Some(now),
                       resourcesFound := if found.Some? then found else runs[k].resourcesFound)]
  }

  function Cleaned(runs: seq<SourceRun>, threshold: real, now: real): (r: seq<SourceRun>)
    ensures |r| == |runs|
  {
    seq(|runs|, k requires 0 <= k < |runs| =>
      if runs[k].status == Running && runs[k].startedAt < now - threshold
      then runs[k].(status := Failed, finishedAt := Some(now)) else runs[k])
  }

  /** Insert, or bump the sighting time and bring a retired resource back. */
  function Seen(resources: map<Key, Resource>, key: Key, now: real): map<Key, Resource> {
    if key in resources then resources[key := resources[key].(lastSeenAt := now, retiredAt := None)]
    else resources[key := Resource(now, now, None)]
  }

  predicate Proves(r: SourceRun, scope: Scope, source: string) {
    r.scope == scope && r.source == source && r.status == Success
  }

  function InsertByStart(runs: seq<SourceRun>, order: seq<nat>, k: nat): (r: seq<nat>)
    requires k < |runs| && forall i :: 0 <= i < |order| ==> order[i] < |runs|
    ensures |r| == |order| + 1 && forall i :: 0 <= i < |r| ==> r[i] < |runs|
  {
    if order == [] then [k]
    else if runs[order[0]].startedAt < runs[k].startedAt then [k] + order
    else [order[0]] + InsertByStart(runs, order[1..], k)
  }

  /** Successful runs of the scope among the first `n`, newest start first. */
  function ByStart(runs: seq<SourceRun>, scope: Scope, source: string, n: nat): (order: seq<nat>)
    requires n <= |runs|
    ensures forall i :: 0 <= i < |order| ==> order[i] < |runs|
  {
    if n == 0 then []
    else
      var order := ByStart(runs, scope, source, n - 1);
      if Proves(runs[n - 1], scope, source) then InsertByStart(runs, order, n - 1) else order
  }

  /** The `limit` most recent successful runs of the scope. */
  function RecentSuccessful(runs: seq<SourceRun>, scope: Scope, source: string, limit: nat): (r: seq<nat>)
    ensures forall i :: 0 <= i < |r| ==> r[i] < |runs|
  {
    var order := ByStart(runs, scope, source, |runs|);
    if limit < |order| then order[..limit] else order
  }

  predicate Stale(key: Key, r: Resource, scope: Scope, oldest: real) {
    key.scope == scope && r.retiredAt == None && r.lastSeenAt < oldest
  }

  function StaleKeys(resources: map<Key, Resource>, runs: seq<SourceRun>, scope: Scope, source: string): set<Key> {
    var recent := RecentSuccessful(runs, scope, source, CONSECUTIVE_SCANS_FOR_RETIREMENT);
    if |recent| < CONSECUTIVE_SCANS_FOR_RETIREMENT then {}
    else
      var oldest := runs[recent[|recent| - 1]].startedAt;
      set k | k in resources && Stale(k, resources[k], scope, oldest)
  }

  function Retired(resources: map<Key, Resource>, keys: set<Key>, now: real): map<Key, Resource> {
    map k | k in resources :: if k in keys then resources[k].(retiredAt := Some(now)) else resources[k]
  }

  // ---------------------------------------------------------------- runs of the whole store

  /** That run `run` saw the resource `key` at time `at`. */
  datatype Sighting = Sighting(run: nat, key: Key, at: real)

  /** The two tables and the clock; `open` are the runs whose scan has not called finish yet
      and `sightings` is every observation so far. */
  datatype Store = Store(
    runs: seq<SourceRun>,
    resources: map<Key, Resource>,
    clock: real,
    open: set<nat>,
    sightings: seq<Sighting>)

  datatype Op =
    | Wait(elapsed: real)
    | Start(scope: Scope, source: string, force: bool)
    | See(run: nat, nativeId: string)
    | Finish(run: nat, status: RunStatus, found: Option<nat>)
    | Sweep(scope: Scope, source: string)
    | Cleanup(threshold: real)

  const EMPTY := Store([], map[], 0.0, {}, [])

  /** One call; a scan only sees and finishes while its run is open, and finishes once. A late
      finish, after a force-abort or a cleanup, still overwrites the status. */
  function Step(s: Store, op: Op): Store {
    match op
    case Wait(elapsed) => if elapsed > 0.0 then s.(clock := s.clock + elapsed) else s
    case Start(scope, source, force) =>
      var (runs, id) := Started(s.runs, scope, source, force, s.clock);
      s.(runs := runs, open := if id.Some? then s.open + {id.value} else s.open)
    case See(run, nativeId) =>
      if run in s.open && run < |s.runs| then
        var key := Key(s.runs[run].scope, nativeId);
        s.(resources := Seen(s.resources, key, s.clock), sightings := s.sightings + [Sighting(run, key, s.clock)])
      else s
    case Finish(run, status, found) =>
      if run in s.open && run < |s.runs| && status != Running then
        s.(runs := Finished(s.runs, run, status, found, s.clock), open := s.open - {run})
      else s
    case Sweep(scope, source) =>
      s.(resources := Retired(s.resources, StaleKeys(s.resources, s.runs, scope, source), s.clock))
    case Cleanup(threshold) => s.(runs := Cleaned(s.runs, threshold, s.clock))
  }

  function Run(s: Store, ops: seq<Op>): Store
    decreases ops
  {
    if ops == [] then s else Run(Step(s, ops[0]), ops[1..])
  }

  // ---------------------------------------------------------------- the two newest runs

  ghost predicate NewestFirst(runs: seq<SourceRun>, order: seq<nat>) {
    && (forall i :: 0 <= i < |order| ==> order[i] < |runs|)
    && (forall i, j :: 0 <= i < j < |order| ==> order[i] != order[j] && runs[order[i]].startedAt >= runs[order[j]].startedAt)
  }

  lemma {:induction false} InsertMembers(runs: seq<SourceRun>, order: seq<nat>, k: nat, x: nat)
    requires k < |runs| && forall i :: 0 <= i < |order| ==> order[i] < |runs|
    ensures x in InsertByStart(runs, order, k) <==> x in order || x == k
  {
    if order != [] && runs[order[0]].startedAt >= runs[k].startedAt {
      InsertMembers(runs, order[1..], k, x);
      assert order == [order[0]] + order[1..];
    }
  }

  lemma {:induction false} InsertKeepsOrder(runs: seq<SourceRun>, order: seq<nat>, k: nat)
    requires NewestFirst(runs, order) && k < |runs| && k !in order
    ensures NewestFirst(runs, InsertByStart(runs, order, k))
  {
    if order != [] && runs[order[0]].startedAt >= runs[k].startedAt {
      InsertKeepsOrder(runs, order[1..], k);
      var rest := InsertByStart(runs, order[1..], k);
      forall j | 0 <= j < |rest| ensures order[0] != rest[j] && runs[order[0]].startedAt >= runs[rest[j]].startedAt {
        InsertMembers(runs, order[1..], k, rest[j]);
        if rest[j] != k {
          var m :| 0 <= m < |order[1..]| && order[1..][m] == rest[j];
          assert order[m + 1] == rest[j];
        }
      }
    }
  }

  lemma MemberNext(runs: seq<SourceRun>, front: seq<nat>, proves: bool, n: nat, k: nat)
    requires n < |runs| && forall i :: 0 <= i < |front| ==> front[i] < |runs|
    ensures k in (if proves then InsertByStart(runs, front, n) else front) <==> k in front || (proves && k == n)
  {
    if proves { InsertMembers(runs, front, n, k); }
  }

  /** The query returns the successful runs of the scope and no others. */
  lemma {:induction false} ByStartMembers(runs: seq<SourceRun>, scope: Scope, source: string, n: nat, k: nat)
    requires n <= |runs|
    ensures k in ByStart(runs, scope, source, n) <==> k < n && Proves(runs[k], scope, source)
  {
    if n > 0 {
      ByStartMembers(runs, scope, source, n - 1, k);
      MemberNext(runs, ByStart(runs, scope, source, n - 1), Proves(runs[n - 1], scope, source), n - 1, k);
    }
  }

  /** ... each once, newest start first. */
  lemma {:induction false} ByStartIsOrdered(runs: seq<SourceRun>, scope: Scope, source: string, n: nat)
    requires n <= |runs|
    ensures NewestFirst(runs, ByStart(runs, scope, source, n))
  {
    if n > 0 {
      ByStartIsOrdered(runs, scope, source, n - 1);
      ByStartMembers(runs, scope, source, n - 1, n - 1);
      if Proves(runs[n - 1], scope, source) {
        InsertKeepsOrder(runs, ByStart(runs, scope, source, n - 1), n - 1);
      }
    }
  }

  /** Two different successful runs of the scope, both started after `t`. */
  ghost predicate MissedTwice(runs: seq<SourceRun>, scope: Scope, source: string, t: real) {
    exists i, j :: 0 <= i < |runs| && 0 <= j < |runs| && i != j
      && Proves(runs[i], scope, source) && Proves(runs[j], scope, source)
      && t < runs[i].startedAt && t < runs[j].startedAt
  }

  lemma NewestTwoMissed(runs: seq<SourceRun>, scope: Scope, source: string, t: real)
    requires var order := ByStart(runs, scope, source, |runs|); |order| >= 2 && t < runs[order[1]].startedAt
    ensures MissedTwice(runs, scope, source, t)
  {
    var order := ByStart(runs, scope, source, |runs|);
    ByStartIsOrdered(runs, scope, source, |runs|);
    assert order[0] in order && order[1] in order;
    ByStartMembers(runs, scope, source, |runs|, order[0]);
    ByStartMembers(runs, scope, source, |runs|, order[1]);
  }

  lemma {:induction false} PlaceOf(runs: seq<SourceRun>, scope: Scope, source: string, k: nat) returns (a: nat)
    requires k < |runs| && Proves(runs[k], scope, source)
    ensures var order := ByStart(runs, scope, source, |runs|); a < |order| && order[a] == k
  {
    ByStartMembers(runs, scope, source, |runs|, k);
    var order := ByStart(runs, scope, source, |runs|);
    a :| 0 <= a < |order| && order[a] == k;
  }

  lemma MissedByNewestTwo(runs: seq<SourceRun>, scope: Scope, source: string, t: real)
    requires MissedTwice(runs, scope, source, t)
    ensures var order := ByStart(runs, scope, source, |runs|); |order| >= 2 && t < runs[order[1]].startedAt
  {
    var i, j :| 0 <= i < |runs| && 0 <= j < |runs| && i != j
      && Proves(runs[i], scope, source) && Proves(runs[j], scope, source)
      && t < runs[i].startedAt && t < runs[j].startedAt;
    var order := ByStart(runs, scope, source, |runs|);
    var a := PlaceOf(runs, scope, source, i);
    var b := PlaceOf(runs, scope, source, j);
    ByStartIsOrdered(runs, scope, source, |runs|);
    var later := if a > b then a else b;
    assert runs[order[1]].startedAt >= runs[order[later]].startedAt;
  }

  lemma TwoNewest(runs: seq<SourceRun>, scope: Scope, source: string, t: real)
    ensures var order := ByStart(runs, scope, source, |runs|);
      MissedTwice(runs, scope, source, t) <==> |order| >= 2 && t < runs[order[1]].startedAt
  {
    if MissedTwice(runs, scope, source, t) {
      MissedByNewestTwo(runs, scope, source, t);
    }
    var order := ByStart(runs, scope, source, |runs|);
    if |order| >= 2 && t < runs[order[1]].startedAt {
      NewestTwoMissed(runs, scope, source, t);
    }
  }

  /** A sweep retires exactly the active resources of its scope that two different successful
      runs of that scope and source started after: no fewer, no more. */
  lemma SweepIsExact(s: Store, scope: Scope, source: string, key: Key)
    requires key in s.resources
    ensures key in StaleKeys(s.resources, s.runs, scope, source) <==>
      key.scope == scope && s.resources[key].retiredAt == None
      && MissedTwice(s.runs, scope, source, s.resources[key].lastSeenAt)
  {
    TwoNewest(s.runs, scope, source, s.resources[key].lastSeenAt);
  }

  // ---------------------------------------------------------------- what every run keeps

  ghost predicate OneActive(runs: seq<SourceRun>) {
    forall k, m :: 0 <= k < m < |runs| && runs[k].status == Running && runs[m].status == Running ==>
      runs[k].scope != runs[m].scope || runs[k].source != runs[m].source
  }

  ghost predicate RunsOk(s: Store) {
    && OneActive(s.runs)
    && (forall k :: 0 <= k < |s.runs| ==> s.runs[k].startedAt <= s.clock)
    && (forall k :: 0 <= k < |s.runs| && s.runs[k].status == Success ==> k !in s.open && s.runs[k].finishedAt.Some?)
  }

  ghost predicate SightingOk(s: Store, x: Sighting) {
    && x.run < |s.runs| && x.key.scope == s.runs[x.run].scope && s.runs[x.run].startedAt <= x.at
    && x.key in s.resources && x.at <= s.resources[x.key].lastSeenAt
  }

  ghost predicate ResourceOk(s: Store, key: Key) {
    && key in s.resources && s.resources[key].lastSeenAt <= s.clock
    && (s.resources[key].retiredAt.Some? ==>
          exists source :: MissedTwice(s.runs, key.scope, source, s.resources[key].lastSeenAt))
  }

  ghost predicate Inv(s: Store) {
    && RunsOk(s)
    && (forall k :: 0 <= k < |s.sightings| ==> SightingOk(s, s.sightings[k]))
    && (forall key :: key in s.resources ==> ResourceOk(s, key))
  }

  /** Runs stay, and a success stays a success: what retired a resource is never taken back. */
  ghost predicate Settles(runs: seq<SourceRun>, more: seq<SourceRun>) {
    && |runs| <= |more|
    && forall k :: 0 <= k < |runs| ==>
        && more[k].scope == runs[k].scope && more[k].source == runs[k].source && more[k].startedAt == runs[k].startedAt
        && (runs[k].status == Success ==> more[k] == runs[k])
  }

  lemma MissedTwiceStays(runs: seq<SourceRun>, more: seq<SourceRun>, scope: Scope, source: string, t: real)
    requires Settles(runs, more) && MissedTwice(runs, scope, source, t)
    ensures MissedTwice(more, scope, source, t)
  {
    var i, j :| 0 <= i < |runs| && 0 <= j < |runs| && i != j
      && Proves(runs[i], scope, source) && Proves(runs[j], scope, source)
      && t < runs[i].startedAt && t < runs[j].startedAt;
    assert Proves(more[i], scope, source) && Proves(more[j], scope, source);
  }

  lemma AbortRuns(s: Store, scope: Scope, source: string)
    requires RunsOk(s)
    ensures var runs := Aborted(s.runs, scope, source, s.clock); RunsOk(s.(runs := runs)) && Settles(s.runs, runs)
  {
  }

  lemma StartRuns(s: Store, scope: Scope, source: string, force: bool)
    requires RunsOk(s)
    ensures var v := Step(s, Start(scope, source, force)); RunsOk(v) && Settles(s.runs, v.runs)
  {
    if force { AbortRuns(s, scope, source); }
    var base := if force then s.(runs := Aborted(s.runs, scope, source, s.clock)) else s;
    assert Step(s, Start(scope, source, force)) == Step(base, Start(scope, source, false));
    StartedRuns(base, scope, source);
  }

  lemma StartedRuns(s: Store, scope: Scope, source: string)
    requires RunsOk(s)
    ensures var v := Step(s, Start(scope, source, false)); RunsOk(v) && Settles(s.runs, v.runs)
  {
  }

  lemma FinishRuns(s: Store, run: nat, status: RunStatus, found: Option<nat>)
    requires RunsOk(s)
    ensures var v := Step(s, Finish(run, status, found)); RunsOk(v) && Settles(s.runs, v.runs)
  {
  }

  lemma CleanupRuns(s: Store, threshold: real)
    requires RunsOk(s)
    ensures var v := Step(s, Cleanup(threshold)); RunsOk(v) && Settles(s.runs, v.runs)
  {
  }

  lemma StepRuns(s: Store, op: Op)
    requires RunsOk(s)
    ensures RunsOk(Step(s, op)) && Settles(s.runs, Step(s, op).runs) && s.clock <= Step(s, op).clock
  {
    match op
    case Start(scope, source, force) => StartRuns(s, scope, source, force);
    case Finish(run, status, found) => FinishRuns(s, run, status, found);
    case Cleanup(threshold) => CleanupRuns(s, threshold);
    case _ =>
  }

  lemma SightingKeeps(s: Store, op: Op, k: nat)
    requires Inv(s) && k < |Step(s, op).sightings| && Settles(s.runs, Step(s, op).runs)
    ensures SightingOk(Step(s, op), Step(s, op).sightings[k])
  {
    if k < |s.sightings| { assert SightingOk(s, s.sightings[k]); }
  }

  /** A resource that was not just seen: what retired it stays, and only the sweep retires. */
  lemma ResourceKeeps(s: Store, op: Op, key: Key)
    requires Inv(s) && Settles(s.runs, Step(s, op).runs) && s.clock <= Step(s, op).clock && key in Step(s, op).resources
    ensures ResourceOk(Step(s, op), key)
  {
    var v := Step(s, op);
    if key in s.resources && v.resources[key].lastSeenAt == s.resources[key].lastSeenAt {
      assert ResourceOk(s, key);
      if s.resources[key].retiredAt.Some? {
        var source :| MissedTwice(s.runs, key.scope, source, s.resources[key].lastSeenAt);
        MissedTwiceStays(s.runs, v.runs, key.scope, source, s.resources[key].lastSeenAt);
      } else if op.Sweep? {
        SweepIsExact(s, op.scope, op.source, key);
      }
    }
  }

  lemma StepKeeps(s: Store, op: Op)
    requires Inv(s)
    ensures Inv(Step(s, op))
  {
    var v := Step(s, op);
    StepRuns(s, op);
    forall k | 0 <= k < |v.sightings| ensures SightingOk(v, v.sightings[k]) { SightingKeeps(s, op, k); }
    forall key | key in v.resources ensures ResourceOk(v, key) { ResourceKeeps(s, op, key); }
  }

  lemma {:induction false} RunKeeps(s: Store, ops: seq<Op>)
    requires Inv(s)
    ensures Inv(Run(s, ops))
    decreases ops
  {
    if ops != [] {
      StepKeeps(s, ops[0]);
      RunKeeps(Step(s, ops[0]), ops[1..]);
    }
  }

  ghost predicate Reachable(s: Store) {
    exists ops :: s == Run(EMPTY, ops)
  }

  lemma ReachableOk(s: Store)
    requires Reachable(s)
    ensures Inv(s)
  {
    var ops :| s == Run(EMPTY, ops);
    RunKeeps(EMPTY, ops);
  }

  // ---------------------------------------------------------------- what the scans prove

  /** Retirement is sound, in every reachable state: a retired resource has two different
      successful runs of its scope that both started after it was last seen. Neither saw it,
      and nothing has seen it since either started. */
  lemma RetiredWasMissedTwice(s: Store, key: Key) returns (i: nat, j: nat)
    requires Reachable(s) && key in s.resources && s.resources[key].retiredAt.Some?
    ensures i < |s.runs| && j < |s.runs| && i != j
    ensures s.runs[i].status == Success && s.runs[j].status == Success && s.runs[i].source == s.runs[j].source
    ensures s.runs[i].scope == key.scope && s.runs[j].scope == key.scope
    ensures s.resources[key].lastSeenAt < s.runs[i].startedAt && s.resources[key].lastSeenAt < s.runs[j].startedAt
    ensures forall k :: 0 <= k < |s.sightings| && s.sightings[k].key == key ==>
      s.sightings[k].run != i && s.sightings[k].run != j
      && s.sightings[k].at < s.runs[i].startedAt && s.sightings[k].at < s.runs[j].startedAt
  {
    ReachableOk(s);
    assert ResourceOk(s, key);
    var source :| MissedTwice(s.runs, key.scope, source, s.resources[key].lastSeenAt);
    i, j :| 0 <= i < |s.runs| && 0 <= j < |s.runs| && i != j
      && Proves(s.runs[i], key.scope, source) && Proves(s.runs[j], key.scope, source)
      && s.resources[key].lastSeenAt < s.runs[i].startedAt && s.resources[key].lastSeenAt < s.runs[j].startedAt;
    forall k | 0 <= k < |s.sightings| && s.sightings[k].key == key
      ensures s.sightings[k].run != i && s.sightings[k].run != j
        && s.sightings[k].at < s.runs[i].startedAt && s.sightings[k].at < s.runs[j].startedAt
    {
      assert SightingOk(s, s.sightings[k]);
    }
  }

  /** A second sweep right after the first, at any later time, retires nothing. */
  lemma SecondSweepIsIdle(s: Store, scope: Scope, source: string, elapsed: real)
    ensures var v := Step(Step(s, Sweep(scope, source)), Wait(elapsed));
      StaleKeys(v.resources, v.runs, scope, source) == {} && Step(v, Sweep(scope, source)) == v
  {
    var v := Step(Step(s, Sweep(scope, source)), Wait(elapsed));
    assert Step(v, Sweep(scope, source)).resources == v.resources;
  }

  /** At most one scan of a scope runs at any time, whatever was forced, aborted or cleaned up. */
  lemma OneScanPerScope(s: Store, k: nat, m: nat)
    requires Reachable(s) && k < |s.runs| && m < |s.runs| && k != m
    requires s.runs[k].status == Running && s.runs[m].status == Running
    ensures s.runs[k].scope != s.runs[m].scope || s.runs[k].source != s.runs[m].source
  {
    ReachableOk(s);
  }

  // ---------------------------------------------------------------- fresh proof of a scope

  function FinishTime(r: SourceRun): real { if r.finishedAt.Some? then r.finishedAt.value else 0.0 }

  /** The successful run of the scope that finished last, among the first `n`. */
  function LastFinished(runs: seq<SourceRun>, scope: Scope, source: string, n: nat): (r: Option<nat>)
    requires n <= |runs|
    ensures r.Some? ==> r.value < n && Proves(runs[r.value], scope, source)
  {
    if n == 0 then None
    else
      var best := LastFinished(runs, scope, source, n - 1);
      if !Proves(runs[n - 1], scope, source) then best
      else if best.Some? && FinishTime(runs[n - 1]) <= FinishTime(runs[best.value]) then best
      else Some(n - 1)
  }

  predicate WithinAge(r: SourceRun, maxAge: Option<real>, now: real) {
    maxAge.None? || (r.finishedAt.Some? && now - r.finishedAt.value <= maxAge.value)
  }

  /** The latest successful run, or nothing when it is older than the freshness window. */
  function LatestSuccessfulRun(runs: seq<SourceRun>, scope: Scope, source: string, maxAge: Option<real>, now: real)
    : (r: Option<nat>)
    ensures r.Some? ==> r.value < |runs| && Proves(runs[r.value], scope, source) && WithinAge(runs[r.value], maxAge, now)
  {
    var best := LastFinished(runs, scope, source, |runs|);
    if best.Some? && WithinAge(runs[best.value], maxAge, now) then best else None
  }

  /** A success of exactly this scope and source that, if there is a window, finished within it. */
  ghost predicate FreshSuccess(r: SourceRun, scope: Scope, source: string, maxAge: Option<real>, now: real) {
    && r.status == Success && r.scope == scope && r.source == source
    && (maxAge.Some? ==> r.finishedAt.Some? && now - r.finishedAt.value <= maxAge.value)
  }

  ghost predicate SomeFreshRun(runs: seq<SourceRun>, scope: Scope, source: string, maxAge: Option<real>, now: real) {
    exists k :: 0 <= k < |runs| && FreshSuccess(runs[k], scope, source, maxAge, now)
  }

  ghost predicate SuccessesAreFinished(runs: seq<SourceRun>) {
    forall k :: 0 <= k < |runs| && runs[k].status == Success ==> runs[k].finishedAt.Some?
  }

  lemma {:induction false} LastFinishedIsLast(runs: seq<SourceRun>, scope: Scope, source: string, n: nat, k: nat)
    requires k < n <= |runs| && Proves(runs[k], scope, source)
    ensures var r := LastFinished(runs, scope, source, n);
      r.Some? && FinishTime(runs[k]) <= FinishTime(runs[r.value])
  {
    if k < n - 1 {
      LastFinishedIsLast(runs, scope, source, n - 1, k);
    }
  }

  /** Looking at the latest success only is enough: it is fresh exactly when some success is. */
  lemma LatestIsFreshIffSomeIs(runs: seq<SourceRun>, scope: Scope, source: string, maxAge: Option<real>, now: real)
    requires SuccessesAreFinished(runs)
    ensures LatestSuccessfulRun(runs, scope, source, maxAge, now).Some? <==> SomeFreshRun(runs, scope, source, maxAge, now)
  {
    var latest := LatestSuccessfulRun(runs, scope, source, maxAge, now);
    if latest.Some? {
      assert FreshSuccess(runs[latest.value], scope, source, maxAge, now);
    }
    if SomeFreshRun(runs, scope, source, maxAge, now) {
      var k :| 0 <= k < |runs| && FreshSuccess(runs[k], scope, source, maxAge, now);
      LastFinishedIsLast(runs, scope, source, |runs|, k);
    }
  }

  lemma ReachableSuccessesAreFinished(s: Store)
    requires Reachable(s)
    ensures SuccessesAreFinished(s.runs)
  {
    ReachableOk(s);
  }
}

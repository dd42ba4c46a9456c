/** The region loop with its circuit breaker
    (`collect_target` in apps/api/src/constat_api/collectors/aws.py). */
module RegionBreaker {

  datatype Error = JobFailed(region: string, job: string) | SkippedByBreaker(region: string)

  /** Errors of region `i`, one per failing job, in job order. */
  function JobErrors(regions: seq<string>, i: nat, jobs: seq<string>, fails: (nat, nat) -> bool, n: nat): seq<Error>
    requires i < |regions| && n <= |jobs|
  {
    if n == 0 then []
    else JobErrors(regions, i, jobs, fails, n - 1) + if fails(i, n - 1) then [JobFailed(regions[i], jobs[n - 1])] else []
  }

  /** Errors of the first `k` regions, all of them scanned. */
  function ScanErrors(regions: seq<string>, jobs: seq<string>, fails: (nat, nat) -> bool, k: nat): seq<Error>
    requires k <= |regions|
  {
    if k == 0 then []
    else ScanErrors(regions, jobs, fails, k - 1) + JobErrors(regions, k - 1, jobs, fails, |jobs|)
  }

  ghost predicate RegionFails(jobs: seq<string>, fails: (nat, nat) -> bool, i: nat) {
    exists j :: 0 <= j < |jobs| && fails(i, j)
  }

  /** The last `threshold` regions before `m` all failed. */
  ghost predicate Trips(jobs: seq<string>, fails: (nat, nat) -> bool, threshold: int, m: nat) {
    m >= threshold && forall i: nat :: m - threshold <= i < m ==> RegionFails(jobs, fails, i)
  }

  /** Exactly the last `count` regions before `m` failed in a row. */
  ghost predicate Streak(jobs: seq<string>, fails: (nat, nat) -> bool, m: nat, count: nat) {
    && count <= m
    && (forall i: nat :: m - count <= i < m ==> RegionFails(jobs, fails, i))
    && (count < m ==> !RegionFails(jobs, fails, m - count - 1))
  }

  lemma StreakDecides(jobs: seq<string>, fails: (nat, nat) -> bool, threshold: int, m: nat, count: nat)
    requires Streak(jobs, fails, m, count)
    ensures Trips(jobs, fails, threshold, m) <==> count >= threshold
  {
  }

  /** The breaker has not tripped at any point before `m`. */
  ghost predicate Untripped(jobs: seq<string>, fails: (nat, nat) -> bool, threshold: int, m: nat) {
    forall k: nat :: k < m ==> !Trips(jobs, fails, threshold, k)
  }

  lemma UntrippedNext(jobs: seq<string>, fails: (nat, nat) -> bool, threshold: int, m: nat, count: nat)
    requires Untripped(jobs, fails, threshold, m) && Streak(jobs, fails, m, count) && count < threshold
    ensures Untripped(jobs, fails, threshold, m + 1)
    ensures Streak(jobs, fails, m + 1, if RegionFails(jobs, fails, m) then count + 1 else 0)
  {
    StreakDecides(jobs, fails, threshold, m, count);
    StreakNext(jobs, fails, m, count);
  }

  lemma StreakNext(jobs: seq<string>, fails: (nat, nat) -> bool, m: nat, count: nat)
    requires Streak(jobs, fails, m, count)
    ensures Streak(jobs, fails, m + 1, if RegionFails(jobs, fails, m) then count + 1 else 0)
  {
  }

  /** What the counter says after `m` scanned regions: the current streak, and no trip so far. */
  ghost predicate Counted(jobs: seq<string>, fails: (nat, nat) -> bool, threshold: int, m: nat, count: nat) {
    Streak(jobs, fails, m, count) && Untripped(jobs, fails, threshold, m)
  }

  function SkipErrors(skipped: seq<string>): seq<Error> {
    if skipped == [] then [] else SkipErrors(skipped[..|skipped| - 1]) + [SkippedByBreaker(skipped[|skipped| - 1])]
  }

  /** The errors of the first `i` regions, of which the first `scanned` were scanned. */
  function ErrorsUpTo(regions: seq<string>, jobs: seq<string>, fails: (nat, nat) -> bool, scanned: nat, i: nat): seq<Error>
    requires scanned <= i <= |regions|
  {
    ScanErrors(regions, jobs, fails, scanned) + SkipErrors(regions[scanned..i])
  }

  // ---------------------------------------------------------------- what the errors name

  lemma {:induction false} JobErrorsAreExact(regions: seq<string>, i: nat, jobs: seq<string>, fails: (nat, nat) -> bool, n: nat, e: Error)
    requires i < |regions| && n <= |jobs|
    ensures e in JobErrors(regions, i, jobs, fails, n) <==> exists j :: 0 <= j < n && fails(i, j) && e == JobFailed(regions[i], jobs[j])
  {
    if n > 0 {
      JobErrorsAreExact(regions, i, jobs, fails, n - 1, e);
    }
  }

  /** Job `j` of region `i` failed, and this is its error. */
  ghost predicate Reports(regions: seq<string>, jobs: seq<string>, fails: (nat, nat) -> bool, e: Error, i: nat, j: nat) {
    i < |regions| && j < |jobs| && fails(i, j) && e == JobFailed(regions[i], jobs[j])
  }

  /** Some job of one of the first `k` regions reports the error. */
  ghost predicate ReportedBelow(regions: seq<string>, jobs: seq<string>, fails: (nat, nat) -> bool, e: Error, k: nat) {
    exists i: nat :: i < k && ReportedIn(regions, jobs, fails, e, i)
  }

  ghost predicate ReportedIn(regions: seq<string>, jobs: seq<string>, fails: (nat, nat) -> bool, e: Error, i: nat) {
    exists j: nat :: Reports(regions, jobs, fails, e, i, j)
  }

  lemma RegionErrorsAreExact(regions: seq<string>, i: nat, jobs: seq<string>, fails: (nat, nat) -> bool, e: Error)
    requires i < |regions|
    ensures e in JobErrors(regions, i, jobs, fails, |jobs|) <==> ReportedIn(regions, jobs, fails, e, i)
  {
    JobErrorsAreExact(regions, i, jobs, fails, |jobs|, e);
    if e in JobErrors(regions, i, jobs, fails, |jobs|) {
      var j :| 0 <= j < |jobs| && fails(i, j) && e == JobFailed(regions[i], jobs[j]);
      assert Reports(regions, jobs, fails, e, i, j);
    }
  }

  lemma InEither(a: seq<Error>, b: seq<Error>, e: Error)
    ensures e in a + b <==> e in a || e in b
  {
  }

  lemma OneMoreReported(regions: seq<string>, jobs: seq<string>, fails: (nat, nat) -> bool, e: Error, k: nat)
    ensures ReportedBelow(regions, jobs, fails, e, k + 1) <==>
      ReportedBelow(regions, jobs, fails, e, k) || ReportedIn(regions, jobs, fails, e, k)
  {
  }

  lemma {:induction false} ScanErrorsAreExact(regions: seq<string>, jobs: seq<string>, fails: (nat, nat) -> bool, k: nat, e: Error)
    requires k <= |regions|
    ensures e in ScanErrors(regions, jobs, fails, k) <==> ReportedBelow(regions, jobs, fails, e, k)
  {
    if k > 0 {
      ScanErrorsAreExact(regions, jobs, fails, k - 1, e);
      RegionErrorsAreExact(regions, k - 1, jobs, fails, e);
      OneMoreReported(regions, jobs, fails, e, k - 1);
      InEither(ScanErrors(regions, jobs, fails, k - 1), JobErrors(regions, k - 1, jobs, fails, |jobs|), e);
    }
  }

  lemma {:induction false} SkipErrorsAreExact(skipped: seq<string>, e: Error)
    ensures |SkipErrors(skipped)| == |skipped|
    ensures e in SkipErrors(skipped) <==> exists i :: 0 <= i < |skipped| && e == SkippedByBreaker(skipped[i])
  {
    if skipped != [] {
      SkipErrorsAreExact(skipped[..|skipped| - 1], e);
    }
  }

  /** An error names a region and job that failed there, or a skipped region, and all of these are
      named. */
  lemma ErrorsNameWhatHappened(regions: seq<string>, jobs: seq<string>, fails: (nat, nat) -> bool, scanned: nat, e: Error)
    requires scanned <= |regions|
    ensures e in ErrorsUpTo(regions, jobs, fails, scanned, |regions|) <==>
      || ReportedBelow(regions, jobs, fails, e, scanned)
      || (exists i :: scanned <= i < |regions| && e == SkippedByBreaker(regions[i]))
  {
    var skipped := regions[scanned..|regions|];
    ScanErrorsAreExact(regions, jobs, fails, scanned, e);
    SkipErrorsAreExact(skipped, e);
    if exists i :: 0 <= i < |skipped| && e == SkippedByBreaker(skipped[i]) {
      var i :| 0 <= i < |skipped| && e == SkippedByBreaker(skipped[i]);
      assert regions[scanned + i] == skipped[i];
    }
    if exists i :: scanned <= i < |regions| && e == SkippedByBreaker(regions[i]) {
      var i :| scanned <= i < |regions| && e == SkippedByBreaker(regions[i]);
      assert skipped[i - scanned] == regions[i];
    }
  }

  /** A region has as many errors as jobs that failed in it. */
  lemma {:induction false} OneErrorPerFailure(regions: seq<string>, i: nat, jobs: seq<string>, fails: (nat, nat) -> bool, n: nat)
    requires i < |regions| && n <= |jobs|
    ensures |JobErrors(regions, i, jobs, fails, n)| == |set j | 0 <= j < n && fails(i, j)|
  {
    var all := set j | 0 <= j < n && fails(i, j);
    if n == 0 {
      assert all == {};
    } else {
      OneErrorPerFailure(regions, i, jobs, fails, n - 1);
      assert all == (set j | 0 <= j < n - 1 && fails(i, j)) + if fails(i, n - 1) then {n - 1} else {};
    }
  }

  lemma OneMoreSkipped(regions: seq<string>, jobs: seq<string>, fails: (nat, nat) -> bool, scanned: nat, i: nat)
    requires scanned <= i < |regions|
    ensures regions[scanned..i] + [regions[i]] == regions[scanned..i + 1]
    ensures ErrorsUpTo(regions, jobs, fails, scanned, i) + [SkippedByBreaker(regions[i])]
      == ErrorsUpTo(regions, jobs, fails, scanned, i + 1)
  {
    var skipped := regions[scanned..i + 1];
    assert skipped[..|skipped| - 1] == regions[scanned..i] && skipped[|skipped| - 1] == regions[i];
  }

  lemma OneMoreScanned(regions: seq<string>, jobs: seq<string>, fails: (nat, nat) -> bool, i: nat)
    requires i < |regions|
    ensures ErrorsUpTo(regions, jobs, fails, i, i) + JobErrors(regions, i, jobs, fails, |jobs|)
      == ErrorsUpTo(regions, jobs, fails, i + 1, i + 1)
  {
    assert regions[i..i] == [] && regions[i + 1..i + 1] == [];
  }

  /** Some job of the region raises what the region job does not catch. */
  ghost predicate RegionEscapes(jobs: seq<string>, escapes: (nat, nat) -> bool, i: nat) {
    exists j :: 0 <= j < |jobs| && escapes(i, j)
  }

  /** The region is reached before the breaker trips, and something escapes in it. */
  ghost predicate EndsAt(jobs: seq<string>, fails: (nat, nat) -> bool, escapes: (nat, nat) -> bool, threshold: int, k: nat) {
    Untripped(jobs, fails, threshold, k + 1) && RegionEscapes(jobs, escapes, k)
  }

  lemma EndsNowhere(jobs: seq<string>, fails: (nat, nat) -> bool, escapes: (nat, nat) -> bool, threshold: int, scanned: nat, n: nat)
    requires scanned <= n && forall k: nat :: k < scanned ==> !RegionEscapes(jobs, escapes, k)
    requires scanned < n ==> Trips(jobs, fails, threshold, scanned)
    ensures forall k: nat :: k < n ==> !EndsAt(jobs, fails, escapes, threshold, k)
  {
    forall k: nat | k < n ensures !EndsAt(jobs, fails, escapes, threshold, k) {
      if k >= scanned { assert !Untripped(jobs, fails, threshold, k + 1); }
    }
  }

  lemma WholeTail(s: seq<string>, k: nat)
    requires k <= |s|
    ensures s[k..|s|] == s[k..]
  {
  }

  /** `fails(i, j)` and `escapes(i, j)` say what job `j` does in region `i` when it is scanned.
      Whatever escapes ends the target, exactly when a region it happens in is reached. Otherwise
      the skipped regions are exactly those from the first point where the breaker trips; the
      scanned ones are all before it, each with its own job errors, and every skipped region has
      one error. */
  method CollectRegions(regions: seq<string>, jobs: seq<string>, fails: (nat, nat) -> bool, escapes: (nat, nat) -> bool, threshold: int)
    returns (raised: bool, skipped: seq<string>, errors: seq<Error>, scanned: nat)
    ensures raised <==> exists k: nat :: k < |regions| && EndsAt(jobs, fails, escapes, threshold, k)
    ensures !raised ==> scanned <= |regions| && skipped == regions[scanned..]
    ensures !raised ==> Untripped(jobs, fails, threshold, scanned)
    ensures !raised && scanned < |regions| ==> Trips(jobs, fails, threshold, scanned)
    ensures !raised ==> errors == ScanErrors(regions, jobs, fails, scanned) + SkipErrors(regions[scanned..])
  {
    raised, skipped, errors, scanned := false, [], [], 0;
    var consecutive: nat := 0;
    for i := 0 to |regions|
      invariant scanned <= i <= |regions| && skipped == regions[scanned..i]
      invariant errors == ErrorsUpTo(regions, jobs, fails, scanned, i)
      invariant Counted(jobs, fails, threshold, scanned, consecutive)
      invariant scanned < i ==> consecutive >= threshold
      invariant !raised && forall k: nat :: k < scanned ==> !RegionEscapes(jobs, escapes, k)
    {
      if consecutive >= threshold {
        OneMoreSkipped(regions, jobs, fails, scanned, i);
        errors := errors + [SkippedByBreaker(regions[i])];
        skipped := skipped + [regions[i]];
      } else {
        var escaped, found, next := ScanRegion(regions, jobs, fails, escapes, threshold, i, consecutive);
        if escaped {
          assert EndsAt(jobs, fails, escapes, threshold, i);
          return true, [], [], scanned;
        }
        OneMoreScanned(regions, jobs, fails, i);
        errors := errors + found;
        consecutive := next;
        scanned := scanned + 1;
      }
    }
    StreakDecides(jobs, fails, threshold, scanned, consecutive);
    EndsNowhere(jobs, fails, escapes, threshold, scanned, |regions|);
    WholeTail(regions, scanned);
  }

  /** One scanned region: its errors, and the counter after it. */
  method ScanRegion(regions: seq<string>, jobs: seq<string>, fails: (nat, nat) -> bool, escapes: (nat, nat) -> bool, threshold: int,
                    i: nat, consecutive: nat)
    returns (raised: bool, found: seq<Error>, next: nat)
    requires i < |regions| && Counted(jobs, fails, threshold, i, consecutive) && consecutive < threshold
    ensures raised <==> RegionEscapes(jobs, escapes, i)
    ensures !raised ==> found == JobErrors(regions, i, jobs, fails, |jobs|)
    ensures !raised ==> Counted(jobs, fails, threshold, i + 1, next)
    ensures Untripped(jobs, fails, threshold, i + 1)
  {
    UntrippedNext(jobs, fails, threshold, i, consecutive);
    raised, found := RunJobs(regions, i, jobs, fails, escapes);
    next := if found != [] then consecutive + 1 else 0;
  }

  /** All jobs of a region run, whatever the earlier ones reported, until one raises past its
      handlers. */
  method RunJobs(regions: seq<string>, i: nat, jobs: seq<string>, fails: (nat, nat) -> bool, escapes: (nat, nat) -> bool)
    returns (raised: bool, errors: seq<Error>)
    requires i < |regions|
    ensures raised <==> RegionEscapes(jobs, escapes, i)
    ensures !raised ==> errors == JobErrors(regions, i, jobs, fails, |jobs|)
    ensures !raised ==> (errors != [] <==> RegionFails(jobs, fails, i))
  {
    raised, errors := false, [];
    for j := 0 to |jobs|
      invariant !raised && forall m :: 0 <= m < j ==> !escapes(i, m)
      invariant errors == JobErrors(regions, i, jobs, fails, j)
      invariant errors != [] <==> exists m :: 0 <= m < j && fails(i, m)
    {
      if escapes(i, j) {
        return true, [];
      }
      if fails(i, j) {
        errors := errors + [JobFailed(regions[i], jobs[j])];
      }
    }
  }
}

/** Two polling loops bounded by a clock: checkSynchronisedVappTemplate
    (vcd/resource_vcd_catalog_vapp_template.go) and waitForMetadataReadiness
    (vcd/resource_vcd_catalog.go). Times are in nanoseconds. */
module Polling {

  const MILLISECOND := 1_000_000
  const SECOND := 1000 * MILLISECOND
  const SLEEP := 500 * MILLISECOND
  const MAX_SYNCHRONISATION := 60 * SECOND
  const MAX_READINESS := 30 * SECOND

  /** The monotone clock's reading in each turn of a loop; a turn sleeps before the next. */
  type Readings = nat -> nat

  ghost predicate Spaced(elapsed: Readings) {
    forall j: nat, k: nat :: j < k ==> elapsed(j) + SLEEP <= elapsed(k)
  }

  lemma {:induction false} TurnsTakeTime(elapsed: Readings, k: nat)
    requires Spaced(elapsed)
    ensures elapsed(k) >= k * SLEEP
  {
    if k > 0 {
      TurnsTakeTime(elapsed, k - 1);
      assert elapsed(k - 1) + SLEEP <= elapsed(k);
    }
  }

  // --------------------------------------------------- synchronisation check

  /** The loop ends with turn k: the query succeeds, or the time is up after it. */
  predicate LastQuery(answers: nat -> bool, elapsed: Readings, k: nat) {
    answers(k) || elapsed(k) > MAX_SYNCHRONISATION
  }

  /** Turn k makes query number k + 1. */
  method CheckSynchronised(answers: nat -> bool, elapsed: Readings) returns (success: bool, iterations: nat)
    requires Spaced(elapsed)
    ensures 1 <= iterations <= 122
    ensures LastQuery(answers, elapsed, iterations - 1)
    ensures forall k: nat :: k < iterations - 1 ==> !LastQuery(answers, elapsed, k)
    ensures success <==> exists k: nat :: k < iterations && answers(k)
  {
    var timeout, err := false, false;
    iterations := 0;
    while !timeout
      invariant timeout || iterations <= 121
      invariant timeout ==> 1 <= iterations <= 122 && err && LastQuery(answers, elapsed, iterations - 1)
      invariant forall k: nat :: k < iterations ==> !answers(k)
      invariant forall k: nat :: k < iterations - 1 ==> !LastQuery(answers, elapsed, k)
      invariant !timeout && iterations > 0 ==> !LastQuery(answers, elapsed, iterations - 1)
      decreases !timeout, 122 - iterations
    {
      iterations := iterations + 1;
      err := !answers(iterations - 1);
      if !err {
        break;
      }
      timeout := elapsed(iterations - 1) > MAX_SYNCHRONISATION;
      TurnsTakeTime(elapsed, iterations - 1);
    }
    success := !err;
  }

  /** The check succeeds exactly when some query before the time is up does. */
  method SynchronisedInTime(answers: nat -> bool, elapsed: Readings) returns (success: bool)
    requires Spaced(elapsed)
    ensures success <==> exists k: nat :: answers(k) && forall j: nat :: j < k ==> elapsed(j) <= MAX_SYNCHRONISATION
    ensures success <==> exists k: nat :: answers(k) && forall j: nat :: j < k ==> elapsed(j) <= 60_000_000_000
  {
    var iterations;
    success, iterations := CheckSynchronised(answers, elapsed);
    forall j: nat | j < iterations - 1 ensures !answers(j) && elapsed(j) <= MAX_SYNCHRONISATION {
      assert !LastQuery(answers, elapsed, j);
    }
    assert success ==> answers(iterations - 1);
    if k: nat :| answers(k) && forall j: nat :: j < k ==> elapsed(j) <= MAX_SYNCHRONISATION {
      assert iterations - 1 < k ==> elapsed(iterations - 1) <= MAX_SYNCHRONISATION;
    }
  }

  /** 122 queries do happen: the comparison is strict and precedes the sleep. */
  lemma BoundIsReached()
    ensures var elapsed: Readings := k => k * SLEEP;
            var never: nat -> bool := k => false;
            && Spaced(elapsed)
            && LastQuery(never, elapsed, 121)
            && forall k: nat :: k < 121 ==> !LastQuery(never, elapsed, k)
  {
    var elapsed: Readings := k => k * SLEEP;
    forall j: nat, k: nat | j < k ensures elapsed(j) + SLEEP <= elapsed(k) {
      assert (k - j) * SLEEP >= SLEEP;
    }
  }

  // ------------------------------------------------------ metadata readiness

  datatype Readiness = Ready | TimedOut | RefreshFailed

  /** `link(k)` after k refreshes; `refresh(k)` says whether refresh k + 1 succeeds. */
  method WaitForMetadataReadiness(link: nat -> bool, refresh: nat -> bool, elapsed: Readings)
    returns (r: Readiness, refreshes: nat)
    requires Spaced(elapsed)
    ensures refreshes <= 61
    ensures r == Ready <==> ReadyInTime(link, refresh, elapsed)
    ensures r == Ready <==> exists k: nat :: link(k) && (forall j: nat :: j < k ==> refresh(j))
                                             && forall j: nat :: j <= k ==> elapsed(j) <= 30_000_000_000
    ensures r == TimedOut ==> elapsed(refreshes) > MAX_READINESS
    ensures r == Ready ==> link(refreshes)
    ensures r == RefreshFailed ==> refreshes > 0 && !refresh(refreshes - 1)
    ensures forall k: nat :: k < refreshes ==> !link(k) && elapsed(k) <= MAX_READINESS
  {
    refreshes := 0;
    while true
      invariant refreshes <= 61
      invariant forall k: nat :: k < refreshes ==> !link(k) && refresh(k) && elapsed(k) <= MAX_READINESS
      decreases 61 - refreshes
    {
      TurnsTakeTime(elapsed, refreshes);
      if elapsed(refreshes) > MAX_READINESS {
        return TimedOut, refreshes;
      }
      if link(refreshes) {
        return Ready, refreshes;
      }
      refreshes := refreshes + 1;
      if !refresh(refreshes - 1) {
        return RefreshFailed, refreshes;
      }
    }
  }

  /** Some turn sees the link, no refresh before it failed and no turn up to it is late. */
  ghost predicate ReadyInTime(link: nat -> bool, refresh: nat -> bool, elapsed: Readings) {
    exists k: nat :: link(k) && (forall j: nat :: j < k ==> refresh(j))
                     && forall j: nat :: j <= k ==> elapsed(j) <= MAX_READINESS
  }

  /** A turn looks at the clock before it looks at the link, so the link that the last
      refresh brings is not seen. */
  lemma LinkOfLastRefreshIsLost()
    ensures var elapsed: Readings := k => k * SLEEP;
            Spaced(elapsed) && !ReadyInTime(k => k >= 61, k => true, elapsed)
  {
    BoundIsReached();
    var elapsed: Readings := k => k * SLEEP;
    assert elapsed(61) > MAX_READINESS;
  }
}

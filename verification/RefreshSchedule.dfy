/** internal/container/secrets_refresher.go: when the token refresher wakes up.  Durations are
    Go's int64 nanoseconds, so every sum and product below is checked for overflow. */
module RefreshSchedule {
  import opened Prelude

  const TWO_63: int := 0x8000_0000_0000_0000
  const MIN_INT64: int := -TWO_63
  const MAX_INT64: int := TWO_63 - 1

  newtype Duration = x: int | -0x8000_0000_0000_0000 <= x < 0x8000_0000_0000_0000

  const SECOND: Duration := 1_000_000_000
  const HOUR: Duration := 3600 * SECOND
  const TOKEN_EXPIRY_BUFFER: Duration := 600 * SECOND
  const MAX_BACKOFF: Duration := 300 * SECOND
  const CLAMP_BACKOFF_STREAK_THRESHOLD := 3
  const CLAMP_BACKOFF_FLOOR: Duration := SECOND
  const CLAMP_BACKOFF_CEILING: Duration := 30 * SECOND
  const MAX_SHIFT := 30

  function Pow2(n: nat): (p: nat)
    ensures p >= 1
  {
    if n == 0 then 1 else 2 * Pow2(n - 1)
  }

  lemma {:induction false} Pow2Monotone(m: nat, n: nat)
    requires m <= n
    ensures Pow2(m) <= Pow2(n)
  {
    if m < n {
      Pow2Monotone(m, n - 1);
    }
  }

  // ----- nextWake -----

  /** Two's complement wrap-around of an int64 result. */
  function Wrap(x: int): (d: Duration)
    ensures MIN_INT64 <= x <= MAX_INT64 ==> d as int == x
  {
    var r := (x + TWO_63) % (2 * TWO_63) - TWO_63;
    r as Duration
  }

  /** time.Time.Sub: the difference, saturating at the ends of int64. */
  function Sub(t: int, u: int): Duration {
    Max(MIN_INT64, Min(MAX_INT64, t - u)) as Duration
  }

  /** Time to the next refresh and whether it was clamped to the one-second minimum.  A token
      without expiry (PAT mode) is refreshed hourly. */
  function NextWake(now: int, expiresAt: Option<int>): (Duration, bool) {
    if expiresAt.None? then (HOUR, false)
    else
      var d := Wrap(Sub(expiresAt.value, now) as int - TOKEN_EXPIRY_BUFFER as int);
      if d < SECOND then (SECOND, true) else (d, false)
  }

  /** Every wake-up.  The refresh is due ten minutes before expiry, never sooner than in one
      second; an expiry too far ahead for int64 counts as the furthest there is; and one too far
      back wraps around to one just as far ahead. */
  lemma NextWakeExactly(now: int, expiresAt: int)
    ensures var left := Max(-0x8000_0000_0000_0000, Min(0x7fff_ffff_ffff_ffff, expiresAt - now)) - 600 * 1_000_000_000;
            NextWake(now, Some(expiresAt)).0 as int ==
            if left < -0x8000_0000_0000_0000 then left + 0x1_0000_0000_0000_0000 else Max(1_000_000_000, left)
  {
    var left := Sub(expiresAt, now) as int - TOKEN_EXPIRY_BUFFER as int;
    if left < MIN_INT64 {
      assert (left + TWO_63) % (2 * TWO_63) == left + TWO_63 + 2 * TWO_63;
    }
  }

  /** Without expiry: hourly, and never flagged. */
  lemma PatModeWakesHourly(now: int)
    ensures NextWake(now, None) == (3600 * 1_000_000_000, false)
  {
    assert HOUR == 3600 * 1_000_000_000;
  }

  /** The clamp flag means "less than the buffer and a second left" exactly when the
      subtraction of the buffer does not wrap around: an expiry over 292 years back is
      taken for one 292 years ahead. */
  lemma ClampedExactly(now: int, expiresAt: int)
    ensures (NextWake(now, Some(expiresAt)).1 <==> expiresAt - now < 601 * 1_000_000_000)
       <==> expiresAt - now >= -0x8000_0000_0000_0000 + 600 * 1_000_000_000
  {
    var left := Sub(expiresAt, now) as int - TOKEN_EXPIRY_BUFFER as int;
    if left < MIN_INT64 {
      assert (left + TWO_63) % (2 * TWO_63) == left + TWO_63 + 2 * TWO_63;
    }
  }

  /** An expiry 2^63 ns, some 292 years, before now: the token is long dead, and the refresher
      neither flags that nor wakes up for another 292 years less ten minutes. */
  lemma FarPastExpirySleeps()
    ensures NextWake(TWO_63, Some(0)) == (((TWO_63 - TOKEN_EXPIRY_BUFFER as int) as Duration), false)
  {
    assert (-TWO_63 - TOKEN_EXPIRY_BUFFER as int + TWO_63) % (2 * TWO_63) == 2 * TWO_63 - TOKEN_EXPIRY_BUFFER as int;
  }

  // ----- The two backoffs -----

  function ClampBackoffDuration(streak: nat): Duration {
    var excess := streak - CLAMP_BACKOFF_STREAK_THRESHOLD;
    if excess < 1 then CLAMP_BACKOFF_FLOOR
    else if excess - 1 >= MAX_SHIFT then CLAMP_BACKOFF_CEILING
    else
      ShiftFits(excess - 1);
      var d := CLAMP_BACKOFF_FLOOR * (Pow2(excess - 1) as Duration);
      if d > CLAMP_BACKOFF_CEILING then CLAMP_BACKOFF_CEILING else d
  }

  /** The guard on the shift keeps the doubled floor inside int64. */
  lemma ShiftFits(shift: nat)
    requires shift < MAX_SHIFT
    ensures Pow2(shift) < 0x4000_0000
  {
    Pow2Monotone(shift, 29);
    assert Pow2(4) == 16;
    FiveShifts(4);
    FiveShifts(9);
    FiveShifts(14);
    FiveShifts(19);
    FiveShifts(24);
  }

  lemma FiveShifts(n: nat)
    ensures Pow2(n + 5) == 32 * Pow2(n)
  {
    assert Pow2(n + 2) == 4 * Pow2(n);
    assert Pow2(n + 4) == 4 * Pow2(n + 2);
  }

  /** Closed form for every streak: the floor up to the threshold and at the first step
      beyond it, then doubling, at most thirty seconds. */
  lemma ClampBackoffClosedForm(streak: nat)
    ensures ClampBackoffDuration(streak) as int
         == if streak <= 3 then 1_000_000_000 else Min(Pow2(streak - 4), 30) * 1_000_000_000
  {
    if streak >= 4 {
      if streak - 4 >= 5 {
        Pow2Monotone(5, streak - 4);
        assert Pow2(5) == 32;
      }
      if streak - 4 < MAX_SHIFT {
        ShiftFits(streak - 4);
      }
    }
  }

  function NextBackoff(d: Duration, limit: Duration): Duration
    requires 0 <= d <= limit <= 0x3fff_ffff_ffff_ffff
  {
    if d * 2 > limit then limit else d * 2
  }

  // ----- The refresher loop -----

  /** One turn of the loop: the refresh failed, or it succeeded at `now` with an expiry. */
  datatype Attempt = Failed | Refreshed(now: int, expiresAt: Option<int>)

  predicate Clamped(a: Attempt) {
    a.Refreshed? && NextWake(a.now, a.expiresAt).1
  }

  /** How many refreshes in a row have failed, up to and including attempt k. */
  function FailureStreak(attempts: seq<Attempt>, k: nat): nat
    requires k <= |attempts|
  {
    if k == 0 || !attempts[k - 1].Failed? then 0 else 1 + FailureStreak(attempts, k - 1)
  }

  /** How many successful refreshes were clamped since the last one that was not; failures in
      between do not end the streak. */
  function ClampStreak(attempts: seq<Attempt>, k: nat): nat
    requires k <= |attempts|
  {
    if k == 0 then 0
    else if attempts[k - 1].Failed? then ClampStreak(attempts, k - 1)
    else if Clamped(attempts[k - 1]) then 1 + ClampStreak(attempts, k - 1)
    else 0
  }

  /** The wait after attempt k, from the history of attempts alone. */
  function WaitAfter(attempts: seq<Attempt>, k: nat): int
    requires k < |attempts|
  {
    match attempts[k]
    case Failed => Min(Pow2(FailureStreak(attempts, k + 1) - 1), 300) * SECOND as int
    case Refreshed(now, expiresAt) =>
      var (wake, clamped) := NextWake(now, expiresAt);
      if !clamped then wake as int
      else
        var n := ClampStreak(attempts, k + 1);
        if n <= 3 then SECOND as int else Min(Pow2(n - 4), 30) * SECOND as int
  }

  /** The backoff variable after n failures in a row. */
  ghost predicate IsBackoff(backoff: Duration, n: nat) {
    backoff as int == Min(Pow2(n), 300) * SECOND as int
  }

  lemma BackoffDoubles(backoff: Duration, n: nat)
    requires IsBackoff(backoff, n)
    ensures SECOND <= backoff <= MAX_BACKOFF && IsBackoff(NextBackoff(backoff, MAX_BACKOFF), n + 1)
  {
  }

  /** Run, over any number of turns: the k-th wait is the one the history calls for. */
  method Run(attempts: seq<Attempt>) returns (waits: seq<Duration>)
    ensures |waits| == |attempts|
    ensures forall k :: 0 <= k < |attempts| ==> waits[k] as int == WaitAfter(attempts, k)
  {
    waits := [];
    var backoff: Duration := SECOND;
    var clampedStreakCount: nat := 0;
    for i := 0 to |attempts|
      invariant |waits| == i && forall k :: 0 <= k < i ==> waits[k] as int == WaitAfter(attempts, k)
      invariant IsBackoff(backoff, FailureStreak(attempts, i))
      invariant clampedStreakCount == ClampStreak(attempts, i)
    {
      BackoffDoubles(backoff, FailureStreak(attempts, i));
      if attempts[i].Failed? {
        waits := waits + [backoff];
        backoff := NextBackoff(backoff, MAX_BACKOFF);
        continue;
      }
      backoff := SECOND;
      var (wake, clamped) := NextWake(attempts[i].now, attempts[i].expiresAt);
      if clamped {
        clampedStreakCount := clampedStreakCount + 1;
        ClampBackoffClosedForm(clampedStreakCount);
        if clampedStreakCount > CLAMP_BACKOFF_STREAK_THRESHOLD {
          wake := ClampBackoffDuration(clampedStreakCount);
        }
      } else {
        clampedStreakCount := 0;
      }
      waits := waits + [wake];
    }
  }

  /** The n-th failure in a row, counted from a success or the start. */
  lemma NthFailureWaits(attempts: seq<Attempt>, k: nat, n: nat)
    requires k < |attempts| && 1 <= n <= k + 1
    requires forall i :: k - n < i <= k ==> attempts[i].Failed?
    requires n == k + 1 || attempts[k - n].Refreshed?
    ensures WaitAfter(attempts, k) == Min(Pow2(n - 1), 300) * 1_000_000_000
  {
    FailuresInARow(attempts, k + 1, n);
  }

  lemma {:induction false} FailuresInARow(attempts: seq<Attempt>, k: nat, n: nat)
    requires n <= k <= |attempts|
    requires forall i :: k - n <= i < k ==> attempts[i].Failed?
    requires n == k || attempts[k - n - 1].Refreshed?
    ensures FailureStreak(attempts, k) == n
  {
    if n > 0 {
      FailuresInARow(attempts, k - 1, n - 1);
    }
  }

  /** The successful refreshes from j up to and not including k. */
  function Refreshes(attempts: seq<Attempt>, j: nat, k: nat): set<nat>
    requires j <= k <= |attempts|
  {
    set i: nat | j <= i < k && attempts[i].Refreshed?
  }

  /** A refresh that was clamped, the n-th such in a row, failures aside: a second for the first
      three and the fourth, then doubling up to thirty; and one that was not waits as due. */
  lemma ClampedRefreshWaits(attempts: seq<Attempt>, j: nat, k: nat)
    requires j <= k < |attempts| && attempts[k].Refreshed?
    requires forall i :: j <= i <= k && attempts[i].Refreshed? ==> Clamped(attempts[i])
    requires j == 0 || (attempts[j - 1].Refreshed? && !Clamped(attempts[j - 1]))
    ensures var n := |Refreshes(attempts, j, k + 1)|;
            WaitAfter(attempts, k) == if n <= 3 then 1_000_000_000 else Min(Pow2(n - 4), 30) * 1_000_000_000
  {
    ClampStreakCounts(attempts, j, k + 1);
  }

  lemma RefreshesGrow(attempts: seq<Attempt>, j: nat, k: nat)
    requires j < k <= |attempts|
    ensures |Refreshes(attempts, j, k)|
         == |Refreshes(attempts, j, k - 1)| + if attempts[k - 1].Refreshed? then 1 else 0
  {
    if attempts[k - 1].Refreshed? {
      assert Refreshes(attempts, j, k) == Refreshes(attempts, j, k - 1) + {k - 1};
    } else {
      assert Refreshes(attempts, j, k) == Refreshes(attempts, j, k - 1);
    }
  }

  lemma {:induction false} ClampStreakCounts(attempts: seq<Attempt>, j: nat, k: nat)
    requires j <= k <= |attempts|
    requires forall i :: j <= i < k && attempts[i].Refreshed? ==> Clamped(attempts[i])
    requires j == 0 || (attempts[j - 1].Refreshed? && !Clamped(attempts[j - 1]))
    ensures ClampStreak(attempts, k) == |Refreshes(attempts, j, k)|
  {
    if j < k {
      ClampStreakCounts(attempts, j, k - 1);
      RefreshesGrow(attempts, j, k);
    } else {
      assert Refreshes(attempts, j, k) == {};
    }
  }

  lemma DueRefreshWaits(attempts: seq<Attempt>, k: nat)
    requires k < |attempts| && attempts[k].Refreshed? && !NextWake(attempts[k].now, attempts[k].expiresAt).1
    ensures WaitAfter(attempts, k) == NextWake(attempts[k].now, attempts[k].expiresAt).0 as int
  {
  }

  lemma WaitsAtLeastOneSecond(attempts: seq<Attempt>, k: nat)
    requires k < |attempts|
    ensures WaitAfter(attempts, k) >= 1_000_000_000
  {
  }

  // ----- How often the token is minted -----

  /** Attempt times: a sleep lasts at least as long as asked. */
  ghost predicate Spaced(times: seq<int>, attempts: seq<Attempt>) {
    && |times| == |attempts|
    && forall k :: 0 <= k < |times| - 1 ==> times[k + 1] >= times[k] + WaitAfter(attempts, k)
  }

  lemma {:induction false} ApartBySeconds(times: seq<int>, attempts: seq<Attempt>, i: nat, j: nat)
    requires Spaced(times, attempts) && i <= j < |times|
    ensures times[j] - times[i] >= (j - i) * 1_000_000_000
  {
    if i < j {
      ApartBySeconds(times, attempts, i, j - 1);
      WaitsAtLeastOneSecond(attempts, j - 1);
      assert times[j - 1 + 1] >= times[j - 1] + WaitAfter(attempts, j - 1);
    }
  }

  /** No window of w seconds holds more than w + 1 mint attempts, whatever fails and whatever
      the clock says. */
  lemma AtMostOneMoreThanSeconds(times: seq<int>, attempts: seq<Attempt>, from: int, w: nat, i: nat, count: nat)
    requires Spaced(times, attempts) && i + count <= |times|
    requires forall k :: i <= k < i + count ==> from <= times[k] <= from + w * 1_000_000_000
    ensures count <= w + 1
  {
    if count > 0 {
      ApartBySeconds(times, attempts, i, i + count - 1);
    }
  }
}

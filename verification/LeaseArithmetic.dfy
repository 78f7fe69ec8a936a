/**
 The fixed-width arithmetic behind lease times. Durations are 64-bit nanosecond counts: the
 difference of two times saturates, sums and products wrap around. Lease durations and
 transition counts are 32-bit.
 */
module LeaseArithmetic {
  import opened Leases

  const TWO_31: int := 0x8000_0000
  const TWO_63: int := 0x8000_0000_0000_0000
  const MAX_DURATION: int := TWO_63 - 1

  function Wrap32(x: int): (r: int)
    ensures -TWO_31 <= r < TWO_31
    ensures -TWO_31 <= x < TWO_31 ==> r == x
  {
    (x + TWO_31) % (2 * TWO_31) - TWO_31
  }

  function Wrap64(x: int): (r: int)
    ensures -TWO_63 <= r < TWO_63
    ensures -TWO_63 <= x < TWO_63 ==> r == x
  {
    (x + TWO_63) % (2 * TWO_63) - TWO_63
  }

  function Saturate64(x: int): (r: int)
  {
    if x > MAX_DURATION then MAX_DURATION else if x < -TWO_63 then -TWO_63 else x
  }

  /** ToTimes as the program computes it. */
  function MachineTimes(lease: Lease, now: int): (t: Times)
  {
    var duration := if Complete(lease) then Wrap64(lease.durationSeconds.value * SECOND) else DEFAULT_LEASE_DURATION;
    var expiration := if Complete(lease) then lease.renewTime.value + duration else now;
    var toExpired := Saturate64(expiration - now);
    Times(expiration, duration, toExpired, Wrap64(toExpired + duration), Wrap64(toExpired + LEASE_TTL))
  }

  function MachineState(lease: Lease, now: int): (s: ShardState)
  {
    StateFromTimes(lease, MachineTimes(lease, now))
  }

  /** What is added to the time to expiry for the lease at hand. */
  function Grace(lease: Lease): (g: int)
    requires Complete(lease)
  {
    if Held(lease) then Duration(lease) else LEASE_TTL
  }

  /**
   For every 32-bit lease duration that the API server admits, the program computes the state
   of the unbounded model exactly when the time to expiry leaves room for the grace period.
   */
  lemma StateExactIff(lease: Lease, now: int)
    requires Proper(lease) && lease.durationSeconds.value < TWO_31
    ensures MachineState(lease, now) == ToState(lease, now) <==> Expiry(lease) - now <= MAX_DURATION - Grace(lease)
  {
  }

  /** A lease that misses a time field never comes near the limits. */
  lemma StateExactIncomplete(lease: Lease, now: int)
    requires !Complete(lease)
    ensures MachineTimes(lease, now) == ToTimes(lease, now)
  {
  }

  /** Rounding to the nearest second, half away from zero, and counting seconds. */
  function RoundedSeconds(duration: int): (s: int)
  {
    var magnitude := if duration < 0 then -duration else duration;
    var rounded := (magnitude + SECOND / 2) / SECOND;
    if duration < 0 then -rounded else rounded
  }

  /** The lease duration that the sharder writes when it acquires a lease. */
  function TakeoverSeconds(duration: int): (s: int)
  {
    Wrap32(2 * Wrap32(RoundedSeconds(duration)))
  }

  /** The sharder writes exactly twice the duration as long as that fits into 32 bits. */
  lemma TakeoverDoublesIff(seconds: int)
    requires 1 <= seconds < TWO_31
    ensures TakeoverSeconds(seconds * SECOND) == 2 * seconds <==> seconds <= TWO_31 / 2 - 1
    ensures seconds > TWO_31 / 2 - 1 ==> TakeoverSeconds(seconds * SECOND) < 0
  {
  }
}

/** Due times that advance by whole periods, shared by the event loop and by periodic
    watches. */
module Grid {
  import opened Division

  /** Adds the period until the time is in the future: the source's do-while loop. */
  function Advance(due: nat, period: nat, now: nat): (next: nat)
    requires period > 0
    ensures next > now && next >= due + period
    decreases if now >= due then now - due else 0
  {
    if now >= due + period then Advance(due + period, period, now) else due + period
  }

  method ComputeAdvance(due: nat, period: nat, now: nat) returns (next: nat)
    requires period > 0
    ensures next == Advance(due, period, now)
  {
    next := due + period;
    while now >= next
      invariant Advance(due, period, now) == if now >= next then Advance(next, period, now) else next
      decreases now - next
    {
      next := next + period;
    }
  }

  /** The number of grid points t0 + period, t0 + 2 * period, ... at or before a time. */
  function Elapsed(t0: nat, period: nat, t: nat): (k: nat)
    requires period > 0
  {
    if t < t0 then 0 else (t - t0) / period
  }

  /** The first grid point after a time. */
  function NextPoint(t0: nat, period: nat, t: nat): nat
    requires period > 0
  {
    t0 + period * (Elapsed(t0, period, t) + 1)
  }

  lemma ElapsedBounds(t0: nat, period: nat, t: nat)
    requires period > 0 && t >= t0
    ensures t0 + period * Elapsed(t0, period, t) <= t < NextPoint(t0, period, t)
  {
    var k := (t - t0) / period;
    assert t - t0 == period * k + (t - t0) % period;
    assert period * (k + 1) == period * k + period;
  }

  lemma ElapsedUnique(t0: nat, period: nat, t: nat, k: nat)
    requires period > 0 && t0 + period * k <= t < t0 + period * (k + 1)
    ensures Elapsed(t0, period, t) == k
  {
    var e := Elapsed(t0, period, t);
    assert t >= t0 by { assert period * k >= 0; }
    ElapsedBounds(t0, period, t);
    WholePeriods(period, e, k);
    WholePeriods(period, k, e);
  }

  /** Advancing from one grid point past a time at or after it lands on the grid again, on the
      first point after that time: late polls skip points but never drift. */
  lemma {:induction false} AdvanceToGrid(t0: nat, period: nat, k: nat, now: nat)
    requires period > 0 && now >= t0 + period * k
    ensures Advance(t0 + period * k, period, now) == NextPoint(t0, period, now)
    decreases now - (t0 + period * k)
  {
    assert t0 + period * (k + 1) == t0 + period * k + period;
    if now >= t0 + period * (k + 1) {
      AdvanceToGrid(t0, period, k + 1, now);
    } else {
      ElapsedUnique(t0, period, now, k);
    }
  }

  /** The due time set after `last` has come at `now` exactly when the number of elapsed
      periods has grown. */
  lemma DueIffElapsed(t0: nat, period: nat, last: nat, now: nat)
    requires period > 0 && t0 <= last <= now
    ensures now >= NextPoint(t0, period, last) <==> Elapsed(t0, period, now) > Elapsed(t0, period, last)
  {
    var k, n := Elapsed(t0, period, last), Elapsed(t0, period, now);
    ElapsedBounds(t0, period, now);
    WholePeriods(period, k, n);
    WholePeriods(period, n, k + 1);
  }

  lemma ElapsedMonotonic(t0: nat, period: nat, s: nat, t: nat)
    requires period > 0 && t0 <= s <= t
    ensures Elapsed(t0, period, s) <= Elapsed(t0, period, t)
  {
    ElapsedBounds(t0, period, s);
    if t < NextPoint(t0, period, s) {
      ElapsedUnique(t0, period, t, Elapsed(t0, period, s));
    } else {
      DueIffElapsed(t0, period, s, t);
    }
  }
}

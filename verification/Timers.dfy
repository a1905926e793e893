/** User timers and the queue they wait in. Times are in nanoseconds. */
module Timers {
  /** What a timer is at one moment. */
  datatype Timer = Timer(due: int, period: int, offset: int, cyclic: bool, canceled: bool)

  /** What a timer is created from. */
  datatype TimerSpec = TimerSpec(offset: int, period: int, cyclic: bool)

  class UserTimer {
    var mNextAbsoluteDueTime: int
    var mPeriod: int
    const mOffsetTime: int
    const mCyclic: bool
    var mCanceled: bool

    ghost function View(): Timer
      reads this
    {
      Timer(mNextAbsoluteDueTime, mPeriod, mOffsetTime, mCyclic, mCanceled)
    }

    constructor (spec: TimerSpec)
      ensures View() == Created(spec)
    {
      mOffsetTime, mPeriod, mCyclic := spec.offset, spec.period, spec.cyclic;
      mCanceled, mNextAbsoluteDueTime := false, spec.offset + spec.period;
    }

    method Set(absoluteTime: int)
      modifies this
      ensures View() == old(View()).(canceled := false, due := absoluteTime + old(mPeriod))
    {
      mCanceled := false;
      mNextAbsoluteDueTime := absoluteTime + mPeriod;
    }

    method Restart()
      modifies this
      ensures View() == Restarted(old(View()))
    {
      Set(mOffsetTime);
    }

    method Shift(offsetTime: int)
      modifies this
      ensures View() == old(View()).(due := old(mNextAbsoluteDueTime) + offsetTime)
    {
      mNextAbsoluteDueTime := mNextAbsoluteDueTime + offsetTime;
    }

    method Cancel()
      modifies this
      ensures View() == old(View()).(canceled := true)
    {
      mCanceled := true;
    }

    method SetPeriod(newPeriod: int)
      modifies this
      ensures View() == old(View()).(due := old(mNextAbsoluteDueTime) + (newPeriod - old(mPeriod)), period := newPeriod)
    {
      Shift(newPeriod - mPeriod);
      mPeriod := newPeriod;
    }
  }

  function Created(spec: TimerSpec): Timer {
    Timer(spec.offset + spec.period, spec.period, spec.offset, spec.cyclic, false)
  }

  /** Restarting a timer makes it what it was created as, even when it was canceled. */
  function Restarted(t: Timer): Timer {
    t.(canceled := false, due := t.offset + t.period)
  }

  // ----- What a timer still has to do -----

  /** The grid d, d + p, ... up to u, for a positive p. */
  function Grid(d: int, p: int, u: int): (g: seq<int>)
    decreases u - d
  {
    if p <= 0 || d > u then [] else [d] + Grid(d + p, p, u)
  }

  /** The times at which a timer is to fire when the timers are processed until u. */
  function ToFire(t: Timer, u: int): seq<int> {
    if t.canceled then [] else if t.cyclic then Grid(t.due, t.period, u) else if t.due <= u then [t.due] else []
  }

  /** The timer after it fired n times. */
  function After(t: Timer, n: nat): Timer {
    if n == 0 then t else var a := After(t, n - 1); a.(due := a.due + a.period)
  }

  /** A live cyclic timer due at d <= u fires (u - d) / p + 1 times, at d, d + p, and so on, and is
      then due at the first of these times after u. */
  lemma {:induction false} GridTimes(d: int, p: int, u: int)
    requires p > 0
    ensures d > u ==> Grid(d, p, u) == []
    ensures d <= u ==> |Grid(d, p, u)| == (u - d) / p + 1
    ensures forall i :: 0 <= i < |Grid(d, p, u)| ==> Grid(d, p, u)[i] == d + i * p && d + i * p <= u
    ensures d + |Grid(d, p, u)| * p > u
    decreases u - d
  {
    if d <= u {
      GridTimes(d + p, p, u);
      var g := Grid(d + p, p, u);
      assert (1 + |g|) * p == p + |g| * p;
      DivStep(u - d, p);
      forall i | 0 <= i < |g| + 1 ensures Grid(d, p, u)[i] == d + i * p && d + i * p <= u {
        if i > 0 {
          assert Grid(d, p, u)[i] == g[i - 1];
          assert i * p == p + (i - 1) * p;
        }
      }
    }
  }

  lemma QuotientUnique(x: int, p: int, q: int, r: int)
    requires p > 0 && x == q * p + r && 0 <= r < p
    ensures x / p == q
  {
    var a, b := x / p, x % p;
    assert x == a * p + b;
    assert (a - q) * p == r - b;
    if a > q {
      MultipleAtLeast(a - q, p);
    } else if a < q {
      MultipleAtLeast(q - a, p);
    }
  }

  lemma MultipleAtLeast(k: int, p: int)
    requires k >= 1 && p > 0
    ensures k * p >= p
  {
  }

  lemma DivStep(x: int, p: int)
    requires p > 0 && x >= 0
    ensures x >= p ==> x / p == (x - p) / p + 1
    ensures x < p ==> x / p == 0
  {
    if x < p {
      QuotientUnique(x, p, 0, x);
    } else {
      var q, r := (x - p) / p, (x - p) % p;
      assert x - p == q * p + r;
      assert (q + 1) * p == q * p + p;
      QuotientUnique(x, p, q + 1, r);
    }
  }

  lemma {:induction false} AfterFields(t: Timer, n: nat)
    ensures After(t, n) == t.(due := t.due + n * t.period)
  {
    if n > 0 {
      AfterFields(t, n - 1);
      assert n * t.period == (n - 1) * t.period + t.period;
    }
  }
}

/** The timing service: the queue of user timers, the logical clock and the requests to advance it. */
module TimingServices {
  import opened Wrappers
  import opened Timers

  /** A callback run: of which timer, at which due time. */
  datatype Firing = Firing(timer: UserTimer, due: int)

  ghost function Views(ts: seq<UserTimer>): (r: seq<Timer>)
    reads ts
    ensures |r| == |ts| && forall i :: 0 <= i < |ts| ==> r[i] == ts[i].View()
  {
    seq(|ts|, i requires 0 <= i < |ts| reads ts => ts[i].View())
  }

  // ----- The firings of one timer -----

  function Dues(log: seq<Firing>, t: UserTimer): seq<int> {
    if log == [] then [] else
      var n := |log| - 1;
      Dues(log[..n], t) + if log[n].timer == t then [log[n].due] else []
  }

  lemma {:induction false} DuesSnoc(log: seq<Firing>, f: Firing, t: UserTimer)
    ensures Dues(log + [f], t) == Dues(log, t) + if f.timer == t then [f.due] else []
  {
    assert (log + [f])[..|log|] == log;
  }

  /** What fired so far, followed by what is still to fire while the timer is queued, is what was
      to fire at the start. A live timer stays queued unless it is a one-shot that fired. */
  ghost predicate Owed(now: Timer, queued: bool, dues: seq<int>, was: Timer, u: int) {
    && now == After(was, if was.cyclic then |dues| else 0)
    && dues + (if queued then ToFire(now, u) else []) == ToFire(was, u)
    && (!was.canceled && (was.cyclic || dues == []) ==> queued)
  }

  lemma OwedAtStart(t: Timer, u: int)
    ensures Owed(t, true, [], t, u)
  {
    assert [] + ToFire(t, u) == ToFire(t, u);
  }

  lemma AfterKeeps(t: Timer, n: nat)
    ensures After(t, n).cyclic == t.cyclic && After(t, n).canceled == t.canceled && After(t, n).period == t.period
  {
  }

  lemma OwedCanceled(now: Timer, dues: seq<int>, was: Timer, u: int)
    requires Owed(now, true, dues, was, u) && now.canceled
    ensures Owed(now, false, dues, was, u)
  {
    AfterKeeps(was, if was.cyclic then |dues| else 0);
  }

  lemma NextFires(t: Timer, u: int)
    requires !t.canceled && t.due <= u && (t.cyclic ==> t.period > 0)
    ensures ToFire(t, u) == [t.due] + if t.cyclic then ToFire(t.(due := t.due + t.period), u) else []
  {
  }

  lemma AfterNext(t: Timer, n: nat)
    ensures After(t, n + 1) == After(t, n).(due := After(t, n).due + t.period)
    ensures After(t, n).period == t.period
  {
    AfterKeeps(t, n);
  }

  lemma OwedFired(now: Timer, dues: seq<int>, was: Timer, u: int)
    requires Owed(now, true, dues, was, u) && !now.canceled && now.due <= u && (now.cyclic ==> now.period > 0)
    ensures now.cyclic ==> Owed(now.(due := now.due + now.period), true, dues + [now.due], was, u)
    ensures !now.cyclic ==> Owed(now, false, dues + [now.due], was, u)
  {
    AfterKeeps(was, if was.cyclic then |dues| else 0);
    NextFires(now, u);
    hide ToFire, After;
    if now.cyclic {
      AfterNext(was, |dues|);
      var rest := ToFire(now.(due := now.due + now.period), u);
      assert dues + ([now.due] + rest) == dues + [now.due] + rest;
    } else {
      assert dues + [now.due] + [] == dues + ([now.due] + []);
    }
  }

  /** Once nothing queued is due, each timer fired exactly at the times it was to fire at. */
  lemma OwedNothing(now: Timer, queued: bool, dues: seq<int>, was: Timer, u: int)
    requires Owed(now, queued, dues, was, u) && (queued ==> now.due > u)
    ensures dues == ToFire(was, u)
  {
    assert dues + [] == dues;
  }

  // ----- Termination -----

  /** How often the loop can still take this timer from the top of the queue. */
  function Load(t: Timer, u: int): nat {
    if t.canceled then 1 else |ToFire(t, u)|
  }

  function Loads(ts: seq<Timer>, u: int): nat {
    if ts == [] then 0 else Loads(ts[..|ts| - 1], u) + Load(ts[|ts| - 1], u)
  }

  lemma {:induction false} LoadsSnoc(ts: seq<Timer>, t: Timer, u: int)
    ensures Loads(ts + [t], u) == Loads(ts, u) + Load(t, u)
  {
    assert (ts + [t])[..|ts|] == ts;
  }

  lemma {:induction false} LoadsWithout(ts: seq<Timer>, i: nat, u: int)
    requires i < |ts|
    ensures Loads(ts[..i] + ts[i + 1..], u) == Loads(ts, u) - Load(ts[i], u)
  {
    hide *;
    var n := |ts| - 1;
    var front := ts[..n];
    assert ts == front + [ts[n]];
    LoadsSnoc(front, ts[n], u);
    if i == n {
      assert ts[..i] + ts[i + 1..] == front;
    } else {
      LoadsWithout(front, i, u);
      assert ts[..i] + ts[i + 1..] == (front[..i] + front[i + 1..]) + [ts[n]];
      LoadsSnoc(front[..i] + front[i + 1..], ts[n], u);
    }
  }

  // ----- The queue while its timers are processed -----

  ghost predicate DistinctTimers(ts: seq<UserTimer>) {
    forall i, j :: 0 <= i < j < |ts| ==> ts[i] != ts[j]
  }

  ghost predicate Queue(ts: seq<UserTimer>)
    reads ts
  {
    && DistinctTimers(ts)
    && (forall t :: t in ts && t.mCyclic ==> t.mPeriod > 0)
  }

  /** Every timer that was queued at the start fired or is queued as it owes. */
  ghost predicate TrackedAs(q0: seq<UserTimer>, now: seq<Timer>, was: seq<Timer>, queue: seq<UserTimer>,
      log: seq<Firing>, u: int) {
    && |now| == |q0| && |was| == |q0|
    && forall i :: 0 <= i < |q0| ==> Owed(now[i], q0[i] in queue, Dues(log, q0[i]), was[i], u)
  }

  ghost predicate Tracked(q0: seq<UserTimer>, was: seq<Timer>, queue: seq<UserTimer>, log: seq<Firing>, u: int)
    reads q0
  {
    TrackedAs(q0, Views(q0), was, queue, log, u)
  }

  /** Timers created meanwhile are due later. */
  ghost predicate Newcomers(q0: seq<UserTimer>, queue: seq<UserTimer>, u: int)
    reads queue
  {
    forall t :: t in queue && t !in q0 ==> !t.mCanceled && t.mNextAbsoluteDueTime > u
  }

  /** Callbacks run in the order of their due times, none later than u and none later than what is
      still queued; only timers queued at the start have run. */
  ghost predicate InOrder(q0: seq<UserTimer>, queue: seq<UserTimer>, log: seq<Firing>, u: int)
    reads queue
  {
    && (forall i, j :: 0 <= i < j < |log| ==> log[i].due <= log[j].due)
    && (forall f :: f in log ==> f.due <= u && f.timer in q0)
    && (forall t :: t in queue && log != [] ==> log[|log| - 1].due <= t.mNextAbsoluteDueTime)
  }

  ghost predicate Progress(q0: seq<UserTimer>, was: seq<Timer>, queue: seq<UserTimer>, log: seq<Firing>, u: int)
    reads q0, queue
  {
    Queue(queue) && Tracked(q0, was, queue, log, u) && Newcomers(q0, queue, u) && InOrder(q0, queue, log, u)
  }

  function Without(ts: seq<UserTimer>, i: nat): seq<UserTimer>
    requires i < |ts|
  {
    ts[..i] + ts[i + 1..]
  }

  lemma WithoutMembers(ts: seq<UserTimer>, i: nat)
    requires i < |ts| && DistinctTimers(ts)
    ensures forall t :: t in Without(ts, i) <==> t in ts && t != ts[i]
    ensures DistinctTimers(Without(ts, i))
  {
    var r := Without(ts, i);
    assert ts == ts[..i] + [ts[i]] + ts[i + 1..];
    assert forall j :: 0 <= j < |r| ==> r[j] == if j < i then ts[j] else ts[j + 1];
    forall t | t in ts && t != ts[i] ensures t in r {
      assert t in ts[..i] || t in ts[i + 1..];
    }
  }

  lemma DistinctSnoc(ts: seq<UserTimer>, t: UserTimer)
    requires DistinctTimers(ts) && t !in ts
    ensures DistinctTimers(ts + [t])
  {
    assert forall i :: 0 <= i < |ts| ==> ts[i] in ts;
  }

  lemma ViewsWithout(ts: seq<UserTimer>, i: nat)
    requires i < |ts|
    ensures Views(Without(ts, i)) == Views(ts)[..i] + Views(ts)[i + 1..]
  {
  }

  lemma LoadWithout(queue: seq<UserTimer>, i: nat, u: int)
    requires i < |queue|
    ensures Loads(Views(Without(queue, i)), u) == Loads(Views(queue), u) - Load(queue[i].View(), u)
  {
    ViewsWithout(queue, i);
    hide Without, Loads, Load;
    LoadsWithout(Views(queue), i, u);
  }

  lemma TrackedWithout(q0: seq<UserTimer>, was: seq<Timer>, queue: seq<UserTimer>, rest: seq<UserTimer>,
      log: seq<Firing>, u: int, top: UserTimer)
    requires Tracked(q0, was, queue, log, u) && top in queue && top.mCanceled
    requires forall t :: t in rest <==> t in queue && t != top
    ensures Tracked(q0, was, rest, log, u)
  {
    hide Dues, Owed;
    forall j | 0 <= j < |q0| ensures Owed(q0[j].View(), q0[j] in rest, Dues(log, q0[j]), was[j], u) {
      assert Owed(q0[j].View(), q0[j] in queue, Dues(log, q0[j]), was[j], u);
      if q0[j] == top {
        OwedCanceled(q0[j].View(), Dues(log, q0[j]), was[j], u);
      }
    }
  }

  lemma OthersWithout(q0: seq<UserTimer>, queue: seq<UserTimer>, log: seq<Firing>, u: int, i: nat)
    requires i < |queue| && Queue(queue) && Newcomers(q0, queue, u) && InOrder(q0, queue, log, u)
    ensures var rest := Without(queue, i);
      && Queue(rest) && Newcomers(q0, rest, u) && InOrder(q0, rest, log, u)
      && forall t :: t in rest <==> t in queue && t != queue[i]
  {
    WithoutMembers(queue, i);
    hide Without;
  }

  /** A live timer that is cyclic or not yet due is still queued; a timer that is queued is due at
      its next time, and not a one-shot that fired. */
  ghost predicate KeptAs(now: Timer, queued: bool, was: Timer, u: int) {
    && (!was.canceled && (was.cyclic || was.due > u) ==> queued)
    && (queued ==> (was.cyclic || ToFire(was, u) == []) && now == After(was, |ToFire(was, u)|))
  }

  lemma OwedKept(now: Timer, queued: bool, dues: seq<int>, was: Timer, u: int)
    requires Owed(now, queued, dues, was, u) && (queued ==> now.due > u)
    ensures KeptAs(now, queued, was, u)
  {
    OwedNothing(now, queued, dues, was, u);
    hide ToFire;
    if queued && !was.cyclic {
      assert now == was;
      NotDue(was, u);
    } else if !was.canceled && was.due > u {
      NotDue(was, u);
    }
  }

  lemma NotDue(t: Timer, u: int)
    requires t.due > u
    ensures ToFire(t, u) == []
  {
  }

  /** Each timer queued at the start fired exactly at the times it was to fire at until u, in the
      order of due times and none later; a live timer that is cyclic or not yet due is still queued,
      due at its next time. */
  ghost predicate AllRan(q0: seq<UserTimer>, was: seq<Timer>, queue: seq<UserTimer>, log: seq<Firing>, u: int)
    reads q0, queue
  {
    && |was| == |q0|
    && (forall i :: 0 <= i < |q0| ==> Dues(log, q0[i]) == ToFire(was[i], u))
    && (forall i, j :: 0 <= i < j < |log| ==> log[i].due <= log[j].due)
    && (forall f :: f in log ==> f.due <= u && f.timer in q0)
    && (forall i :: 0 <= i < |q0| ==> KeptAs(q0[i].View(), q0[i] in queue, was[i], u))
    && (forall t :: t in queue && t !in q0 ==> !t.mCanceled)
  }

  lemma NothingDue(q0: seq<UserTimer>, was: seq<Timer>, queue: seq<UserTimer>, log: seq<Firing>, u: int)
    requires Progress(q0, was, queue, log, u) && forall t :: t in queue ==> t.mNextAbsoluteDueTime > u
    ensures AllRan(q0, was, queue, log, u) && Queue(queue)
  {
    forall i | 0 <= i < |q0|
      ensures Dues(log, q0[i]) == ToFire(was[i], u)
      ensures KeptAs(q0[i].View(), q0[i] in queue, was[i], u)
    {
      hide Dues, KeptAs;
      OwedNothing(q0[i].View(), q0[i] in queue, Dues(log, q0[i]), was[i], u);
      OwedKept(q0[i].View(), q0[i] in queue, Dues(log, q0[i]), was[i], u);
    }
    hide Dues, KeptAs, ToFire, Owed;
  }

  lemma ProgressAtStart(q0: seq<UserTimer>, u: int)
    requires Queue(q0)
    ensures Progress(q0, Views(q0), q0, [], u)
  {
    hide Owed;
    forall j | 0 <= j < |q0| ensures Owed(q0[j].View(), q0[j] in q0, Dues([], q0[j]), Views(q0)[j], u) {
      OwedAtStart(q0[j].View(), u);
    }
  }

  lemma DueIsTracked(q0: seq<UserTimer>, was: seq<Timer>, queue: seq<UserTimer>, log: seq<Firing>, u: int, t: UserTimer)
    requires Progress(q0, was, queue, log, u) && t in queue && t.mNextAbsoluteDueTime <= u
    ensures t in q0
  {
  }

  /** Popping a canceled timer. */
  lemma ProgressWithoutCanceled(q0: seq<UserTimer>, was: seq<Timer>, queue: seq<UserTimer>, log: seq<Firing>, u: int,
      i: nat)
    requires Progress(q0, was, queue, log, u) && i < |queue| && queue[i].mCanceled
    ensures Progress(q0, was, Without(queue, i), log, u)
    ensures Loads(Views(Without(queue, i)), u) == Loads(Views(queue), u) - 1
    ensures forall t :: t in Without(queue, i) ==> t in queue
  {
    WithoutMembers(queue, i) by { assert Queue(queue); }
    LoadWithout(queue, i, u);
    hide Loads, Views;
    hide Without, Queue, Tracked, Newcomers, InOrder;
    OthersWithout(q0, queue, log, u, i);
    TrackedWithout(q0, was, queue, Without(queue, i), log, u, queue[i]);
  }

  /** Some element of a non-empty queue is due first. */
  lemma {:induction false} FirstExists(ts: seq<UserTimer>) returns (i: nat)
    requires ts != []
    ensures i < |ts| && forall t :: t in ts ==> ts[i].mNextAbsoluteDueTime <= t.mNextAbsoluteDueTime
  {
    if |ts| == 1 {
      i := 0;
    } else {
      var n := |ts| - 1;
      i := FirstExists(ts[..n]);
      assert forall t :: t in ts <==> t in ts[..n] || t == ts[n];
      if ts[n].mNextAbsoluteDueTime < ts[i].mNextAbsoluteDueTime {
        i := n;
      }
    }
  }

  // ----- Running the callback of the first timer -----

  function Advance(t: Timer): Timer {
    if t.cyclic then t.(due := t.due + t.period) else t
  }

  /** The timers are as they were before, except that the top one, if cyclic, is due a period later. */
  ghost predicate Advanced(ts: seq<UserTimer>, before: seq<Timer>, top: UserTimer)
    reads ts
  {
    && |before| == |ts|
    && forall i :: 0 <= i < |ts| ==> ts[i].View() == if ts[i] == top then Advance(before[i]) else before[i]
  }

  /** Queued next are the timers queued before, without the top one unless it is cyclic, and timers
      registered meanwhile that are due later. */
  ghost predicate Requeued(queue: seq<UserTimer>, top: UserTimer, next: seq<UserTimer>, u: int)
    reads next
  {
    && DistinctTimers(next)
    && (forall t :: t in queue ==> (t in next <==> t != top || top.mCyclic))
    && (forall t :: t in next && t !in queue ==>
      !t.mCanceled && t.mNextAbsoluteDueTime > u && (t.mCyclic ==> t.mPeriod > 0))
  }

  lemma RequeuedFrom(queue: seq<UserTimer>, rest: seq<UserTimer>, timers: seq<UserTimer>, top: UserTimer,
      next: seq<UserTimer>, u: int)
    requires next == rest + timers + (if top.mCyclic then [top] else []) && top in queue
    requires forall t :: t in rest <==> t in queue && t != top
    requires DistinctTimers(rest) && DistinctTimers(timers)
    requires forall t :: t in timers ==>
      t !in queue && !t.mCanceled && t.mNextAbsoluteDueTime > u && (t.mCyclic ==> t.mPeriod > 0)
    ensures Requeued(queue, top, next, u)
  {
    assert forall t :: t in next <==> t in rest || t in timers || (top.mCyclic && t == top);
    assert forall i :: 0 <= i < |rest| ==> next[i] in rest;
    assert forall i :: |rest| <= i < |rest| + |timers| ==> next[i] in timers;
  }

  lemma TrackedFired(q0: seq<UserTimer>, before: seq<Timer>, was: seq<Timer>, queue: seq<UserTimer>,
      log: seq<Firing>, u: int,
                     top: UserTimer, topBefore: Timer, next: seq<UserTimer>)
    requires TrackedAs(q0, before, was, queue, log, u) && Advanced(q0, before, top) && top in queue
      && Requeued(queue, top, next, u)
    requires forall i :: 0 <= i < |q0| && q0[i] == top ==> before[i] == topBefore
    requires !topBefore.canceled && topBefore.due <= u && (topBefore.cyclic ==> topBefore.period > 0)
      && topBefore.cyclic == top.mCyclic
    requires forall t :: t in next ==> t in queue || t !in q0
    ensures Tracked(q0, was, next, log + [Firing(top, topBefore.due)], u)
  {
    hide Dues, Owed;
    var f := Firing(top, topBefore.due);
    forall j | 0 <= j < |q0| ensures Owed(q0[j].View(), q0[j] in next, Dues(log + [f], q0[j]), was[j], u) {
      var t := q0[j];
      DuesSnoc(log, f, t);
      assert Owed(before[j], t in queue, Dues(log, t), was[j], u);
      if t == top {
        OwedFired(before[j], Dues(log, t), was[j], u);
      } else {
        assert Dues(log, t) + [] == Dues(log, t);
      }
    }
  }

  /** What the other parts of Progress say of the timers as they were before. */
  ghost predicate QueuedBefore(q0: seq<UserTimer>, queue: seq<UserTimer>, before: seq<Timer>, log: seq<Firing>,
      topBefore: Timer, u: int) {
    && |before| == |queue|
    && (forall i :: 0 <= i < |queue| ==> (before[i].cyclic ==> before[i].period > 0) && topBefore.due <= before[i].due)
    && (forall i :: 0 <= i < |queue| && queue[i] !in q0 ==> !before[i].canceled && before[i].due > u)
    && (forall i, j :: 0 <= i < j < |log| ==> log[i].due <= log[j].due)
    && (forall f :: f in log ==> f.due <= u && f.timer in q0)
    && (log != [] ==> log[|log| - 1].due <= topBefore.due)
  }

  lemma QueuedNow(q0: seq<UserTimer>, was: seq<Timer>, queue: seq<UserTimer>, log: seq<Firing>, u: int, i: nat)
    requires Progress(q0, was, queue, log, u)
    requires i < |queue| && forall t :: t in queue ==> queue[i].mNextAbsoluteDueTime <= t.mNextAbsoluteDueTime
    ensures QueuedBefore(q0, queue, Views(queue), log, queue[i].View(), u)
      && TrackedAs(q0, Views(q0), was, queue, log, u)
  {
    hide Dues, Owed;
  }

  lemma OthersFired(q0: seq<UserTimer>, queue: seq<UserTimer>, before: seq<Timer>, log: seq<Firing>, u: int,
      top: UserTimer, topBefore: Timer, next: seq<UserTimer>)
    requires QueuedBefore(q0, queue, before, log, topBefore, u) && Advanced(queue, before, top)
      && Requeued(queue, top, next, u)
    requires top in q0 && topBefore.due <= u
    ensures Queue(next) && Newcomers(q0, next, u) && InOrder(q0, next, log + [Firing(top, topBefore.due)], u)
  {
    var f := Firing(top, topBefore.due);
    forall t | t in next
      ensures t.mCyclic ==> t.mPeriod > 0
      ensures t !in q0 ==> !t.mCanceled && t.mNextAbsoluteDueTime > u
      ensures f.due <= t.mNextAbsoluteDueTime
    {
      if t in queue {
        var i :| 0 <= i < |queue| && queue[i] == t;
        assert t.View() == if t == top then Advance(before[i]) else before[i];
      }
    }
  }

  lemma {:induction false} LoadsConcat(a: seq<Timer>, b: seq<Timer>, u: int)
    ensures Loads(a + b, u) == Loads(a, u) + Loads(b, u)
  {
    hide Load;
    if b == [] {
      assert a + b == a;
    } else {
      var n := |b| - 1;
      LoadsConcat(a, b[..n], u);
      assert (a + b)[..|a| + n] == a + b[..n];
    }
  }

  lemma {:induction false} LoadsLater(ts: seq<Timer>, u: int)
    requires forall t :: t in ts ==> !t.canceled && t.due > u
    ensures Loads(ts, u) == 0
  {
    if ts != [] { LoadsLater(ts[..|ts| - 1], u); }
  }

  lemma ViewsConcat(a: seq<UserTimer>, b: seq<UserTimer>)
    ensures Views(a + b) == Views(a) + Views(b)
  {
  }

  lemma RestUnchanged(queue: seq<UserTimer>, before: seq<Timer>, i: nat)
    requires i < |queue| && DistinctTimers(queue) && Advanced(queue, before, queue[i])
    ensures Views(Without(queue, i)) == before[..i] + before[i + 1..]
  {
    var rest := Without(queue, i);
    assert forall j :: 0 <= j < |rest| ==> rest[j].View() == if j < i then before[j] else before[j + 1];
  }

  lemma LoadsFired(queue: seq<UserTimer>, before: seq<Timer>, i: nat, timers: seq<UserTimer>, u: int)
    requires i < |queue| && DistinctTimers(queue) && Advanced(queue, before, queue[i])
    requires !before[i].canceled && before[i].due <= u && (before[i].cyclic ==> before[i].period > 0)
      && before[i].cyclic == queue[i].mCyclic
    requires forall t :: t in timers ==> !t.mCanceled && t.mNextAbsoluteDueTime > u
    ensures Loads(Views(Without(queue, i) + timers + if queue[i].mCyclic then [queue[i]] else []),
      u) == Loads(before, u) - 1
  {
    hide Load, Loads, Without, Views, DistinctTimers;
    LoadFired(before[i], u);
    assert queue[i].View() == Advance(before[i]);
    hide *;
    RestUnchanged(queue, before, i);
    LoadsWithout(before, i, u);
    LoadsAfter(Without(queue, i), timers, queue[i], u);
  }

  lemma LoadsAfter(rest: seq<UserTimer>, timers: seq<UserTimer>, top: UserTimer, u: int)
    requires forall t :: t in timers ==> !t.mCanceled && t.mNextAbsoluteDueTime > u
    ensures Loads(Views(rest + timers + if top.mCyclic then [top] else []), u) ==
      Loads(Views(rest), u) + if top.mCyclic then Load(top.View(), u) else 0
  {
    var tail := if top.mCyclic then [top] else [];
    assert Loads(Views(tail), u) == if top.mCyclic then Load(top.View(), u) else 0 by {
      assert Views(tail) == if top.mCyclic then [] + [top.View()] else [];
      LoadsSnoc([], top.View(), u);
      hide Load;
    }
    LoadsLater(Views(timers), u);
    hide Load, Loads;
    ViewsConcat(rest + timers, tail);
    ViewsConcat(rest, timers);
    LoadsConcat(Views(rest) + Views(timers), Views(tail), u);
    LoadsConcat(Views(rest), Views(timers), u);
  }

  lemma LoadFired(t: Timer, u: int)
    requires !t.canceled && t.due <= u && (t.cyclic ==> t.period > 0)
    ensures Load(t, u) == 1 + if t.cyclic then Load(t.(due := t.due + t.period), u) else 0
  {
  }

  ghost predicate DueFirst(ts: seq<UserTimer>, i: nat)
    requires i < |ts|
    reads ts
  {
    forall t :: t in ts ==> ts[i].mNextAbsoluteDueTime <= t.mNextAbsoluteDueTime
  }

  /** The earliest due time in the queue, which is that of any timer at its top. */
  lemma EarliestOf(ts: seq<UserTimer>) returns (first: Option<int>)
    ensures EarliestDue(Views(ts), first) && (first.None? <==> ts == [])
    ensures forall i :: 0 <= i < |ts| && DueFirst(ts, i) ==> first == Some(ts[i].mNextAbsoluteDueTime)
  {
    first := None;
    if ts != [] {
      var w := FirstExists(ts);
      first := Some(ts[w].mNextAbsoluteDueTime);
      assert Views(ts)[w].due == first.value;
      assert forall k :: 0 <= k < |ts| ==> ts[k] in ts;
    }
  }

  // ----- What callbacks register -----

  /** The timers that the first n callbacks register, in order. */
  function Spawned(spawn: nat -> seq<TimerSpec>, n: nat): seq<TimerSpec> {
    if n == 0 then [] else Spawned(spawn, n - 1) + spawn(n - 1)
  }

  /** Timers registered from these, each still as it was created. */
  ghost predicate Registered(timers: seq<UserTimer>, specs: seq<TimerSpec>)
    reads timers
  {
    && |timers| == |specs| && DistinctTimers(timers)
    && forall k :: 0 <= k < |timers| ==> timers[k].View() == Created(specs[k])
  }

  /** The new timers in the queue are those registered, or none while the federate is not online. */
  ghost predicate Entered(q0: seq<UserTimer>, queue: seq<UserTimer>, registered: seq<UserTimer>, online: bool) {
    && (forall t :: t in queue && t !in q0 ==> online && t in registered)
    && (forall t :: t in registered ==> t !in q0 && (t in queue <==> online))
  }

  /** Only timers of the first queue leave it, and only those registered meanwhile enter it. */
  ghost predicate Followed(q0: seq<UserTimer>, queue: seq<UserTimer>, next: seq<UserTimer>, more: seq<UserTimer>,
      online: bool) {
    && (forall t :: t in queue && t !in q0 ==> t in next)
    && (forall t :: t in next ==> t in queue || (online && t in more))
    && (forall t :: t in more ==> (t in next <==> online))
  }

  lemma RegisteredMore(a: seq<UserTimer>, b: seq<UserTimer>, c: seq<TimerSpec>, d: seq<TimerSpec>)
    requires Registered(a, c) && Registered(b, d) && forall t :: t in a ==> t !in b
    ensures Registered(Both(a, b), c + d)
  {
    assert forall i :: 0 <= i < |a| ==> (a + b)[i] in a;
    assert forall i :: |a| <= i < |a| + |b| ==> (a + b)[i] in b;
  }

  lemma EnteredMore(q0: seq<UserTimer>, queue: seq<UserTimer>, next: seq<UserTimer>, a: seq<UserTimer>,
      b: seq<UserTimer>, online: bool)
    requires Entered(q0, queue, a, online) && Followed(q0, queue, next, b, online)
    requires forall t :: t in b ==> t !in q0 && t !in a
    ensures Entered(q0, next, Both(a, b), online)
  {
    assert forall t :: t in a + b <==> t in a || t in b;
  }

  lemma NothingRegistered(q0: seq<UserTimer>, queue: seq<UserTimer>, persistent: seq<UserTimer>, online: bool)
    ensures Followed(q0, queue, queue, [], online) && Grew(persistent, persistent, [])
  {
  }

  lemma NothingEntered(q0: seq<UserTimer>, spawn: nat -> seq<TimerSpec>, persistent: seq<UserTimer>, online: bool)
    ensures Entered(q0, q0, [], online) && Registered([], Spawned(spawn, 0)) && Grew(persistent, persistent, [])
  {
  }

  lemma FollowedWithout(q0: seq<UserTimer>, queue: seq<UserTimer>, i: nat, online: bool)
    requires i < |queue| && DistinctTimers(queue) && queue[i] in q0
    ensures Followed(q0, queue, Without(queue, i), [], online)
  {
    WithoutMembers(queue, i);
    hide Without, DistinctTimers;
  }

  /** The top timer, one of the first queue, left; the others stay. */
  lemma FollowedBy(q0: seq<UserTimer>, queue: seq<UserTimer>, top: UserTimer, next: seq<UserTimer>,
      more: seq<UserTimer>, online: bool)
    requires top in q0 && (forall t :: t in queue && t != top ==> t in next)
    requires forall t :: t in next ==> t in queue || (online && t in more)
    requires forall t :: t in more ==> t !in queue
    requires online ==> forall t :: t in more ==> t in next
    ensures Followed(q0, queue, next, more, online)
  {
  }

  lemma SpawnedNext(spawn: nat -> seq<TimerSpec>, n: nat)
    ensures Spawned(spawn, n + 1) == Spawned(spawn, n) + spawn(n)
  {
  }

  /** These timers were appended, in order. */
  ghost predicate Grew(was: seq<UserTimer>, now: seq<UserTimer>, more: seq<UserTimer>) {
    now == was + more
  }

  lemma Apart(q0: seq<UserTimer>, queue: seq<UserTimer>, registered: seq<UserTimer>, online: bool)
    requires Entered(q0, queue, registered, online)
    ensures forall t :: t in registered ==> t !in q0
  {
  }

  lemma GrewMore(was: seq<UserTimer>, mid: seq<UserTimer>, now: seq<UserTimer>, a: seq<UserTimer>, b: seq<UserTimer>)
    requires Grew(was, mid, a) && Grew(mid, now, b)
    ensures Grew(was, now, Both(a, b))
  {
  }

  function Both(a: seq<UserTimer>, b: seq<UserTimer>): seq<UserTimer> {
    a + b
  }

  lemma BothMembers(a: seq<UserTimer>, b: seq<UserTimer>)
    ensures Both(a, []) == a && forall t :: t in Both(a, b) <==> t in a || t in b
  {
  }

  /** A round registered what its callback gives, or nothing when none ran. */
  lemma RoundEntered(q0: seq<UserTimer>, queue: seq<UserTimer>, next: seq<UserTimer>, registered: seq<UserTimer>,
      more: seq<UserTimer>, spawn: nat -> seq<TimerSpec>, n: nat, m: nat, online: bool)
    requires Entered(q0, queue, registered, online) && Followed(q0, queue, next, more, online)
    requires Registered(registered, Spawned(spawn, n))
    requires (m == n + 1 && Registered(more, spawn(n))) || (m == n && more == [])
    requires forall t :: t in more ==> t !in q0 && t !in registered
    ensures Registered(Both(registered, more), Spawned(spawn, m)) && Entered(q0, next, Both(registered, more), online)
  {
    hide *;
    EnteredMore(q0, queue, next, registered, more, online);
    BothMembers(registered, []);
    if m == n + 1 {
      SpawnedNext(spawn, n);
      RegisteredMore(registered, more, Spawned(spawn, n), spawn(n));
    }
  }

  lemma CanceledIsTracked(q0: seq<UserTimer>, was: seq<Timer>, queue: seq<UserTimer>, log: seq<Firing>, u: int,
      t: UserTimer)
    requires Progress(q0, was, queue, log, u) && t in queue && t.mCanceled
    ensures t in q0
  {
  }

  lemma QueueDistinct(q0: seq<UserTimer>, was: seq<Timer>, queue: seq<UserTimer>, log: seq<Firing>, u: int)
    requires Progress(q0, was, queue, log, u)
    ensures DistinctTimers(queue)
  {
  }

  // ----- The service -----

  class TimingService {
    const mTimeConstrainedEnabled: bool
    const mTimeRegulationEnabled: bool
    const mLookahead: int
    var mOnline: bool
    var mTimerQueue: seq<UserTimer>
    var mTimerPersistent: seq<UserTimer>
    var mLogicalTime: int
    var mGrantedTime: int
    var mInitialOffsetTime: int
    var mProcessUserTimers: bool
    var mIsRegulating: bool
    var mIsConstrained: bool
    var mRequestPending: bool
    var mUserRequestedSimTime: int

    constructor (constrained: bool, regulating: bool, lookahead: int)
      ensures mTimeConstrainedEnabled == constrained && mTimeRegulationEnabled == regulating && mLookahead == lookahead
      ensures mTimerQueue == [] && mTimerPersistent == [] && !mOnline
    {
      mTimeConstrainedEnabled, mTimeRegulationEnabled, mLookahead := constrained, regulating, lookahead;
      mOnline, mTimerQueue, mTimerPersistent := false, [], [];
      mLogicalTime, mGrantedTime, mInitialOffsetTime, mUserRequestedSimTime := 0, 0, 0, 0;
      mProcessUserTimers, mIsRegulating, mIsConstrained, mRequestPending := false, false, false, false;
    }

    /** Kept for the next join, and queued at once while online. */
    method RegisterTimer(spec: TimerSpec) returns (timer: UserTimer)
      modifies `mTimerPersistent, `mTimerQueue
      ensures fresh(timer) && timer.View() == Created(spec)
      ensures mTimerPersistent == old(mTimerPersistent) + [timer]
      ensures mTimerQueue == if mOnline then old(mTimerQueue) + [timer] else old(mTimerQueue)
    {
      timer := new UserTimer(spec);
      mTimerPersistent := mTimerPersistent + [timer];
      if mOnline {
        mTimerQueue := mTimerQueue + [timer];
      }
    }

    /** The top of the priority queue: any timer due first. */
    method Top() returns (i: nat)
      requires mTimerQueue != []
      ensures i < |mTimerQueue| && forall t :: t in mTimerQueue ==>
        mTimerQueue[i].mNextAbsoluteDueTime <= t.mNextAbsoluteDueTime
    {
      ghost var w := FirstExists(mTimerQueue);
      i :| 0 <= i < |mTimerQueue| && forall t :: t in mTimerQueue ==>
        mTimerQueue[i].mNextAbsoluteDueTime <= t.mNextAbsoluteDueTime;
    }

    /** The timers a callback registers. */
    method RegisterTimers(specs: seq<TimerSpec>) returns (timers: seq<UserTimer>)
      modifies `mTimerPersistent, `mTimerQueue
      ensures |timers| == |specs| && fresh(timers) && (forall k :: 0 <= k < |specs| ==>
        timers[k].View() == Created(specs[k]))
      ensures DistinctTimers(timers)
      ensures mTimerPersistent == old(mTimerPersistent) + timers
      ensures mTimerQueue == if mOnline then old(mTimerQueue) + timers else old(mTimerQueue)
    {
      timers := [];
      for k := 0 to |specs|
        invariant |timers| == k && fresh(timers) && (forall j :: 0 <= j < k ==> timers[j].View() == Created(specs[j]))
        invariant DistinctTimers(timers)
        invariant mTimerPersistent == old(mTimerPersistent) + timers
        invariant mTimerQueue == if mOnline then old(mTimerQueue) + timers else old(mTimerQueue)
      {
        var timer := RegisterTimer(specs[k]);
        timers := timers + [timer];
      }
    }

    /** The top timer is due: it is popped, its callback runs and may register timers, and a cyclic
        timer is set to its next due time and pushed again. */
    method FireTop(i: nat, spawned: seq<TimerSpec>, u: int)
      returns (firing: Firing, ghost timers: seq<UserTimer>, ghost registered: seq<UserTimer>)
      requires Queue(mTimerQueue) && i < |mTimerQueue|
      requires !mTimerQueue[i].mCanceled && mTimerQueue[i].mNextAbsoluteDueTime <= u
      requires forall spec :: spec in spawned ==> Later(spec, u)
      modifies `mTimerPersistent, `mTimerQueue, mTimerQueue[i]
      ensures firing == Firing(old(mTimerQueue[i]), old(mTimerQueue[i].mNextAbsoluteDueTime))
      ensures fresh(registered) && Registered(registered, spawned)
      ensures mTimerPersistent == old(mTimerPersistent) + registered
      ensures timers == if mOnline then registered else []
      ensures fresh(timers) && Requeued(old(mTimerQueue), firing.timer, mTimerQueue, u)
      ensures firing.timer.View() == Advance(old(mTimerQueue[i].View()))
      ensures mTimerQueue == Without(old(mTimerQueue), i) + timers + if firing.timer.mCyclic then [firing.timer] else []
      ensures forall t :: t in timers ==> !t.mCanceled && t.mNextAbsoluteDueTime > u
      ensures forall t :: t in mTimerQueue ==> t in old(mTimerQueue) || t in timers
    {
      var topTimer := mTimerQueue[i];
      var nextTimerDueTime := topTimer.mNextAbsoluteDueTime;
      WithoutMembers(mTimerQueue, i);
      hide Without;
      mTimerQueue := Without(mTimerQueue, i);
      firing := Firing(topTimer, topTimer.mNextAbsoluteDueTime);
      registered := RegisterTimers(spawned);
      timers := if mOnline then registered else [];
      forall t | t in timers ensures t !in old(mTimerQueue) && !t.mCanceled && t.mNextAbsoluteDueTime > u
        && (t.mCyclic ==> t.mPeriod > 0) {
        var k :| 0 <= k < |timers| && timers[k] == t;
        assert Later(spawned[k], u) && t.View() == Created(spawned[k]);
      }
      if topTimer.mCyclic {
        topTimer.Set(nextTimerDueTime);
        mTimerQueue := mTimerQueue + [topTimer];
      }
      RequeuedFrom(old(mTimerQueue), Without(old(mTimerQueue), i), timers, topTimer, mTimerQueue, u);
    }

    /** One round: a canceled top timer is popped, a due one runs; otherwise the loop ends. */
    method ProcessTop(log: seq<Firing>, spawned: seq<TimerSpec>, u: int, ghost q0: seq<UserTimer>,
        ghost was: seq<Timer>)
      returns (next: seq<Firing>, done: bool, ghost registered: seq<UserTimer>)
      requires mTimerQueue != [] && Progress(q0, was, mTimerQueue, log, u)
      requires forall spec :: spec in spawned ==> Later(spec, u)
      modifies `mTimerPersistent, `mTimerQueue, q0
      ensures Progress(q0, was, mTimerQueue, next, u)
      ensures done ==> forall t :: t in mTimerQueue ==> t.mNextAbsoluteDueTime > u
      ensures !done ==> Loads(Views(mTimerQueue), u) < old(Loads(Views(mTimerQueue), u))
      ensures (forall t :: t in registered ==> fresh(t)) && Grew(old(mTimerPersistent), mTimerPersistent, registered)
      ensures (|next| == |log| + 1 && Registered(registered, spawned)) || (next == log && registered == [])
      ensures Followed(q0, old(mTimerQueue), mTimerQueue, registered, mOnline)
    {
      hide *;
      next, done, registered := log, false, [];
      NothingRegistered(q0, mTimerQueue, mTimerPersistent, mOnline);
      var i := Top();
      if mTimerQueue[i].mCanceled {
        CanceledIsTracked(q0, was, mTimerQueue, log, u, mTimerQueue[i]);
        QueueDistinct(q0, was, mTimerQueue, log, u);
        FollowedWithout(q0, mTimerQueue, i, mOnline);
        PopTop(i, log, u, q0, was);
      } else if u >= mTimerQueue[i].mNextAbsoluteDueTime {
        DueIsTracked(q0, was, mTimerQueue, log, u, mTimerQueue[i]);
        ghost var top := mTimerQueue[i];
        next, registered := ExecuteTop(i, log, spawned, u, q0, was);
        FollowedBy(q0, old(mTimerQueue), top, mTimerQueue, registered, mOnline);
      } else {
        done := true;
      }
    }

    /** A round, with what was registered so far. */
    method ProcessRound(log: seq<Firing>, spawn: nat -> seq<TimerSpec>, u: int, ghost q0: seq<UserTimer>,
        ghost was: seq<Timer>, ghost persistent: seq<UserTimer>, ghost registered: seq<UserTimer>)
      returns (next: seq<Firing>, done: bool, ghost now: seq<UserTimer>)
      requires mTimerQueue != [] && Progress(q0, was, mTimerQueue, log, u)
      requires forall k, spec :: spec in spawn(k) ==> Later(spec, u)
      requires Registered(registered, Spawned(spawn, |log|)) && Grew(persistent, mTimerPersistent, registered)
      requires Entered(q0, mTimerQueue, registered, mOnline)
      modifies `mTimerPersistent, `mTimerQueue, q0
      ensures Progress(q0, was, mTimerQueue, next, u)
      ensures done ==> forall t :: t in mTimerQueue ==> t.mNextAbsoluteDueTime > u
      ensures !done ==> Loads(Views(mTimerQueue), u) < old(Loads(Views(mTimerQueue), u))
      ensures Registered(now, Spawned(spawn, |next|)) && Grew(persistent, mTimerPersistent, now)
      ensures Entered(q0, mTimerQueue, now, mOnline)
      ensures forall t :: t in now ==> t in registered || fresh(t)
    {
      Apart(q0, mTimerQueue, registered, mOnline);
      hide *;
      ghost var queue, before := mTimerQueue, mTimerPersistent;
      ghost var more;
      next, done, more := ProcessTop(log, spawn(|log|), u, q0, was);
      assert Registered(registered, Spawned(spawn, |log|));
      assert forall t :: t in more ==> t !in q0 && t !in registered;
      RoundEntered(q0, queue, mTimerQueue, registered, more, spawn, |log|, |next|, mOnline);
      GrewMore(persistent, before, mTimerPersistent, registered, more);
      now := Both(registered, more);
      BothMembers(registered, more);
    }

    /** The rounds, until nothing is due. */
    method ProcessRounds(u: int, spawn: nat -> seq<TimerSpec>, ghost q0: seq<UserTimer>, ghost was: seq<Timer>,
        ghost persistent: seq<UserTimer>)
      returns (log: seq<Firing>, ghost registered: seq<UserTimer>)
      requires mTimerQueue == q0 && Progress(q0, was, mTimerQueue, [], u)
      requires persistent == mTimerPersistent
      requires forall k, spec :: spec in spawn(k) ==> Later(spec, u)
      modifies `mTimerPersistent, `mTimerQueue, q0
      ensures Progress(q0, was, mTimerQueue, log, u)
      ensures forall t :: t in mTimerQueue ==> t.mNextAbsoluteDueTime > u
      ensures Registered(registered, Spawned(spawn, |log|)) && Grew(persistent, mTimerPersistent, registered)
      ensures Entered(q0, mTimerQueue, registered, mOnline)
      ensures forall t :: t in registered ==> fresh(t)
    {
      hide *;
      log, registered := [], [];
      NothingEntered(q0, spawn, persistent, mOnline);
      while |mTimerQueue| > 0
        invariant Progress(q0, was, mTimerQueue, log, u)
        invariant Registered(registered, Spawned(spawn, |log|)) && Grew(persistent, mTimerPersistent, registered)
        invariant Entered(q0, mTimerQueue, registered, mOnline)
        invariant forall t :: t in registered ==> fresh(t)
        decreases Loads(Views(mTimerQueue), u)
      {
        var next, done;
        next, done, registered := ProcessRound(log, spawn, u, q0, was, persistent, registered);
        log := next;
        if done {
          break;
        }
      }
    }

    /** Runs the callbacks of the timers due until a time; the k-th callback registers the timers
        that spawn gives. Those registered are kept for the next join, in order, and while online they
        are the new timers in the queue, each as it was created. */
    method ProcessUserTimers(processUntil: int, spawn: nat -> seq<TimerSpec>)
      returns (log: seq<Firing>, ghost registered: seq<UserTimer>)
      requires Queue(mTimerQueue)
      requires forall k, spec :: spec in spawn(k) ==> Later(spec, processUntil)
      modifies `mTimerPersistent, `mTimerQueue, mTimerQueue
      ensures AllRan(old(mTimerQueue), old(Views(mTimerQueue)), mTimerQueue, log, processUntil)
      ensures Queue(mTimerQueue) && forall t :: t in mTimerQueue ==> t.mNextAbsoluteDueTime > processUntil
      ensures (forall t :: t in registered ==> fresh(t)) && Registered(registered, Spawned(spawn, |log|))
      ensures Grew(old(mTimerPersistent), mTimerPersistent, registered)
      ensures Entered(old(mTimerQueue), mTimerQueue, registered, mOnline)
    {
      hide *;
      ghost var q0, was := mTimerQueue, Views(mTimerQueue);
      ProgressAtStart(q0, processUntil);
      log, registered := ProcessRounds(processUntil, spawn, q0, was, mTimerPersistent);
      NothingDue(q0, was, mTimerQueue, log, processUntil);
    }

    method PopTop(i: nat, log: seq<Firing>, u: int, ghost q0: seq<UserTimer>, ghost was: seq<Timer>)
      requires Progress(q0, was, mTimerQueue, log, u) && i < |mTimerQueue| && mTimerQueue[i].mCanceled
      modifies `mTimerQueue
      ensures Progress(q0, was, mTimerQueue, log, u)
      ensures Loads(Views(mTimerQueue), u) == old(Loads(Views(mTimerQueue), u)) - 1
      ensures mTimerQueue == Without(old(mTimerQueue), i)
    {
      hide *;
      ProgressWithoutCanceled(q0, was, mTimerQueue, log, u, i);
      mTimerQueue := Without(mTimerQueue, i);
    }

    method ExecuteTop(i: nat, log: seq<Firing>, spawned: seq<TimerSpec>, u: int, ghost q0: seq<UserTimer>,
        ghost was: seq<Timer>)
      returns (next: seq<Firing>, ghost registered: seq<UserTimer>)
      requires Progress(q0, was, mTimerQueue, log, u)
      requires i < |mTimerQueue| && forall t :: t in mTimerQueue ==>
        mTimerQueue[i].mNextAbsoluteDueTime <= t.mNextAbsoluteDueTime
      requires !mTimerQueue[i].mCanceled && mTimerQueue[i].mNextAbsoluteDueTime <= u && mTimerQueue[i] in q0
      requires forall spec :: spec in spawned ==> Later(spec, u)
      modifies `mTimerPersistent, `mTimerQueue, mTimerQueue[i]
      ensures Progress(q0, was, mTimerQueue, next, u) && next == log
        + [Firing(old(mTimerQueue[i]), old(mTimerQueue[i].mNextAbsoluteDueTime))]
      ensures Loads(Views(mTimerQueue), u) == old(Loads(Views(mTimerQueue), u)) - 1
      ensures fresh(registered) && Registered(registered, spawned)
      ensures Grew(old(mTimerPersistent), mTimerPersistent, registered)
      ensures forall t :: t in mTimerQueue ==> t in old(mTimerQueue) || (mOnline && t in registered)
      ensures forall t :: t in old(mTimerQueue) && t != old(mTimerQueue[i]) ==> t in mTimerQueue
      ensures mOnline ==> forall t :: t in registered ==> t in mTimerQueue
    {
      ghost var queue, before0, before, topBefore := mTimerQueue, Views(q0), Views(mTimerQueue), mTimerQueue[i].View();
      QueuedNow(q0, was, mTimerQueue, log, u, i);
      hide Tracked, TrackedAs, Newcomers, InOrder, Without, Loads, QueuedBefore, DistinctTimers, Registered;
      var firing;
      ghost var timers;
      firing, timers, registered := FireTop(i, spawned, u);
      assert forall t :: t in queue && t != firing.timer ==> t in mTimerQueue;
      hide Requeued;
      next := log + [firing];
      TrackedFired(q0, before0, was, queue, log, u, firing.timer, topBefore, mTimerQueue);
      OthersFired(q0, queue, before, log, u, firing.timer, topBefore, mTimerQueue);
      LoadsFired(queue, before, i, timers, u);
    }

    // ----- Joining and resetting -----

    /** The persistent timers restart and wait in the queue, shifted by the time the federate joins
        at: the time queried when no policy is enabled, else the time of the policy enabled last. */
    method OnJoined(queried: int, regulatedAt: int, constrainedAt: int)
      requires mTimerQueue == [] && DistinctTimers(mTimerPersistent)
      modifies `mTimerQueue, `mIsRegulating, `mIsConstrained, `mLogicalTime, `mGrantedTime, `mInitialOffsetTime,
        mTimerPersistent
      ensures mLogicalTime == mGrantedTime == mInitialOffsetTime ==
        if mTimeConstrainedEnabled then constrainedAt else if mTimeRegulationEnabled then regulatedAt else queried
      ensures (mTimeRegulationEnabled ==> mIsRegulating) && (mTimeConstrainedEnabled ==> mIsConstrained)
      ensures DistinctTimers(mTimerQueue) && forall t :: t in mTimerQueue <==> t in mTimerPersistent
      ensures forall t :: t in mTimerPersistent ==>
        t.View() == Restarted(old(t.View())).(due := t.mOffsetTime + old(t.mPeriod) + mInitialOffsetTime)
    {
      if !mTimeConstrainedEnabled && !mTimeRegulationEnabled {
        SetInitialTime(queried);
      } else {
        if mTimeRegulationEnabled {
          TimeRegulationEnabled(regulatedAt);
        }
        if mTimeConstrainedEnabled {
          TimeConstrainedEnabled(constrainedAt);
        }
      }
      RestartAll();
      var timers := PopAll();
      ShiftAll(timers);
    }

    method RestartAll()
      requires mTimerQueue == [] && DistinctTimers(mTimerPersistent)
      modifies `mTimerQueue, mTimerPersistent
      ensures mTimerQueue == mTimerPersistent
      ensures forall t :: t in mTimerPersistent ==> t.View() == Restarted(old(t.View()))
    {
      for i := 0 to |mTimerPersistent|
        invariant mTimerQueue == mTimerPersistent[..i]
        invariant forall j :: 0 <= j < i ==> mTimerPersistent[j].View() == Restarted(old(mTimerPersistent[j].View()))
        invariant forall j :: i <= j < |mTimerPersistent| ==>
          mTimerPersistent[j].View() == old(mTimerPersistent[j].View())
      {
        mTimerPersistent[i].Restart();
        mTimerQueue := mTimerQueue + [mTimerPersistent[i]];
      }
    }

    /** The queued timers in the order they come from the top. */
    method PopAll() returns (timers: seq<UserTimer>)
      requires DistinctTimers(mTimerQueue)
      modifies `mTimerQueue
      ensures mTimerQueue == [] && DistinctTimers(timers)
      ensures forall t :: t in timers <==> t in old(mTimerQueue)
    {
      timers := [];
      while mTimerQueue != []
        invariant DistinctTimers(timers) && DistinctTimers(mTimerQueue)
        invariant forall t :: t in old(mTimerQueue) <==> t in timers || t in mTimerQueue
        invariant forall t :: t in timers ==> t !in mTimerQueue
        decreases |mTimerQueue|
      {
        var i := Top();
        WithoutMembers(mTimerQueue, i);
        DistinctSnoc(timers, mTimerQueue[i]);
        hide DistinctTimers, Without;
        timers := timers + [mTimerQueue[i]];
        mTimerQueue := Without(mTimerQueue, i);
      }
    }

    method ShiftAll(timers: seq<UserTimer>)
      requires mTimerQueue == [] && DistinctTimers(timers) && forall t :: t in timers ==> t in mTimerPersistent
      modifies `mTimerQueue, mTimerPersistent
      ensures mTimerQueue == timers
      ensures forall t :: t in timers ==>
        t.View() == old(t.View()).(due := old(t.mNextAbsoluteDueTime) + mInitialOffsetTime)
    {
      for i := 0 to |timers|
        invariant mTimerQueue == timers[..i]
        invariant forall j :: 0 <= j < i ==>
          timers[j].View() == old(timers[j].View()).(due := old(timers[j].mNextAbsoluteDueTime) + mInitialOffsetTime)
        invariant forall j :: i <= j < |timers| ==> timers[j].View() == old(timers[j].View())
      {
        assert timers[i] in timers;
        timers[i].Shift(mInitialOffsetTime);
        mTimerQueue := mTimerQueue + [timers[i]];
      }
    }

    /** The persistent timers stay as they are until the next join. */
    method Reset()
      modifies `mTimerQueue, `mLogicalTime, `mGrantedTime, `mInitialOffsetTime, `mUserRequestedSimTime
      modifies `mProcessUserTimers, `mIsRegulating, `mIsConstrained, `mRequestPending
      ensures mTimerQueue == [] && mLogicalTime == mGrantedTime == mInitialOffsetTime == mUserRequestedSimTime == 0
      ensures !mProcessUserTimers && !mIsRegulating && !mIsConstrained && !mRequestPending
    {
      mLogicalTime, mGrantedTime, mUserRequestedSimTime, mInitialOffsetTime := 0, 0, 0, 0;
      mProcessUserTimers, mIsRegulating, mIsConstrained, mRequestPending := false, false, false, false;
      while mTimerQueue != []
        modifies `mTimerQueue
        decreases |mTimerQueue|
      {
        var i := Top();
        mTimerQueue := Without(mTimerQueue, i);
      }
    }

    /** The due timers run once after the clock advanced. */
    method ProcessBuffers(spawn: nat -> seq<TimerSpec>)
      returns (log: seq<Firing>, ghost registered: seq<UserTimer>)
      requires Queue(mTimerQueue)
      requires forall k, spec :: spec in spawn(k) ==> Later(spec, mLogicalTime)
      modifies `mProcessUserTimers, `mTimerPersistent, `mTimerQueue, mTimerQueue
      ensures !mProcessUserTimers && Queue(mTimerQueue)
      ensures if old(mProcessUserTimers) then
          AllRan(old(mTimerQueue), old(Views(mTimerQueue)), mTimerQueue, log, mLogicalTime)
          && forall t :: t in mTimerQueue ==> t.mNextAbsoluteDueTime > mLogicalTime
        else log == [] && mTimerQueue == old(mTimerQueue) && Views(mTimerQueue) == old(Views(mTimerQueue))
      ensures (forall t :: t in registered ==> fresh(t)) && Registered(registered, Spawned(spawn, |log|))
      ensures Grew(old(mTimerPersistent), mTimerPersistent, registered)
      ensures Entered(old(mTimerQueue), mTimerQueue, registered, mOnline)
    {
      hide AllRan, Queue, Views, Later, Registered, Entered, Grew;
      log, registered := [], [];
      NothingEntered(mTimerQueue, spawn, mTimerPersistent, mOnline);
      if mProcessUserTimers {
        mProcessUserTimers := false;
        log, registered := ProcessUserTimers(mLogicalTime, spawn);
      }
    }

    // ----- The clock -----

    method SetInitialTime(initialTime: int)
      modifies `mLogicalTime, `mGrantedTime, `mInitialOffsetTime
      ensures mLogicalTime == mGrantedTime == mInitialOffsetTime == initialTime
    {
      mLogicalTime := initialTime;
      mGrantedTime := initialTime;
      mInitialOffsetTime := initialTime;
    }

    /** The granted time is what the RTI granted; the logical time never goes back. */
    method SetNewTime(newTime: int)
      modifies `mLogicalTime, `mGrantedTime, `mProcessUserTimers
      ensures mGrantedTime == newTime && mLogicalTime == Latest(old(mLogicalTime), newTime)
      ensures mProcessUserTimers == (old(mProcessUserTimers) || newTime > old(mLogicalTime))
    {
      mGrantedTime := newTime;
      if newTime > mLogicalTime {
        mLogicalTime := newTime;
        mProcessUserTimers := true;
      }
    }

    method TimeRegulationEnabled(theTime: int)
      modifies `mIsRegulating, `mLogicalTime, `mGrantedTime, `mInitialOffsetTime
      ensures mIsRegulating && mLogicalTime == mGrantedTime == mInitialOffsetTime == theTime
    {
      mIsRegulating := true;
      SetInitialTime(theTime);
    }

    method TimeConstrainedEnabled(theTime: int)
      modifies `mIsConstrained, `mLogicalTime, `mGrantedTime, `mInitialOffsetTime
      ensures mIsConstrained && mLogicalTime == mGrantedTime == mInitialOffsetTime == theTime
    {
      mIsConstrained := true;
      SetInitialTime(theTime);
    }

    method TimeAdvanceGrant(theTime: int)
      modifies `mLogicalTime, `mGrantedTime, `mProcessUserTimers, `mRequestPending
      ensures !mRequestPending && mGrantedTime == theTime && mLogicalTime == Latest(old(mLogicalTime), theTime)
      ensures mProcessUserTimers == (old(mProcessUserTimers) || theTime > old(mLogicalTime))
    {
      SetNewTime(theTime);
      mRequestPending := false;
    }

    /** Only a regulating federate may ask, and only for a later time. */
    method RequestSimulationTime(newTime: int)
      modifies `mUserRequestedSimTime
      ensures mUserRequestedSimTime == if mIsRegulating && newTime > mLogicalTime then newTime
        else old(mUserRequestedSimTime)
    {
      if !mIsRegulating {
        return;
      }
      if newTime <= mLogicalTime {
        return;
      }
      mUserRequestedSimTime := newTime;
    }

    /** first is the earliest due time in the queue, if any. */
    method TimeRequest() returns (request: Request, ghost first: Option<int>)
      modifies `mRequestPending
      ensures EarliestDue(Views(mTimerQueue), first)
      ensures request == NextRequest(
        mOnline && !old(mRequestPending) && (mTimeConstrainedEnabled || mTimeRegulationEnabled),
        mIsConstrained, mIsRegulating, mLookahead, mLogicalTime, mUserRequestedSimTime, first)
      ensures mRequestPending == (old(mRequestPending) || !request.NoRequest?)
      ensures request.NextMessageRequest? ==> mIsConstrained
      ensures request.TimeAdvanceRequest? ==> mIsRegulating && !mIsConstrained
      ensures request.NextMessageRequest? || request.TimeAdvanceRequest? ==>
        request.time > mLogicalTime
        && request.time == if mUserRequestedSimTime > mLogicalTime then mUserRequestedSimTime
             else if first.Some? then first.value else if mIsConstrained then END_OF_TIME - mLookahead - 1 else 0
    {
      request := NoRequest;
      first := EarliestOf(mTimerQueue);
      hide EarliestDue, Views;
      if mOnline && !mRequestPending && (mTimeConstrainedEnabled || mTimeRegulationEnabled) {
        var nextRequestTime := 0;
        if mIsConstrained {
          nextRequestTime := END_OF_TIME - mLookahead - 1;
        }
        if mTimerQueue != [] {
          var i := Top();
          assert DueFirst(mTimerQueue, i);
          nextRequestTime := mTimerQueue[i].mNextAbsoluteDueTime;
        }
        if mUserRequestedSimTime > mLogicalTime {
          nextRequestTime := mUserRequestedSimTime;
        }
        if nextRequestTime > mLogicalTime {
          if mIsConstrained {
            request := NextMessageRequest(nextRequestTime);
          } else if mIsRegulating {
            request := TimeAdvanceRequest(nextRequestTime);
          } else {
            request := Unsent;
          }
          mRequestPending := true;
        }
      }
    }
  }

  const END_OF_TIME := 0x7fff_ffff_ffff_ffff

  /** What is asked of the RTI. A federate whose policies are configured but not yet enabled notes a
      pending request without sending one. */
  datatype Request = NoRequest | NextMessageRequest(time: int) | TimeAdvanceRequest(time: int) | Unsent

  ghost predicate EarliestDue(ts: seq<Timer>, due: Option<int>) {
    if due.None? then ts == []
    else (exists i :: 0 <= i < |ts| && ts[i].due == due.value) && (forall t :: t in ts ==> due.value <= t.due)
  }

  /** The time to advance to: what the user asked for if it is later than now, else the earliest due
      time, else for a constrained federate as far as possible. */
  function Target(constrained: bool, lookahead: int, logical: int, user: int, due: Option<int>): int {
    if user > logical then user
    else if due.Some? then due.value
    else if constrained then END_OF_TIME - lookahead - 1
    else 0
  }

  function NextRequest(may: bool, constrained: bool, regulating: bool, lookahead: int, logical: int, user: int,
      due: Option<int>): Request {
    var target := Target(constrained, lookahead, logical, user, due);
    if !may || target <= logical then NoRequest
    else if constrained then NextMessageRequest(target)
    else if regulating then TimeAdvanceRequest(target)
    else Unsent
  }

  function Latest(a: int, b: int): int {
    if b > a then b else a
  }

  /** A timer registered by a callback is due after the time processed. */
  predicate Later(spec: TimerSpec, u: int) {
    spec.offset + spec.period > u && (spec.cyclic ==> spec.period > 0)
  }
}
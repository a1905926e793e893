/** In every run at most one request is outstanding, timers run on time, each exactly as often as it
    is to, and every live one gets to run. */
module TimingRuns {
  import opened Wrappers
  import opened Timers
  import opened TimingServices
  import opened TimingModel

  // ----- One outstanding request -----

  lemma OneRequestStep(f: Federate, step: Step)
    requires OneRequest(f) && Enabled(f, step)
    ensures OneRequest(Next(f, step))
    ensures step.Advance? && f.pending.Some? ==> Next(f, step) == f
    ensures f.logical <= Next(f, step).logical
    ensures var n := Next(f, step);
      n.constrained == f.constrained && n.regulating == f.regulating && n.lookahead == f.lookahead
  {
  }

  lemma {:induction false} OneRequestReached(f: Federate, steps: seq<Step>, start: Federate)
    requires Joined(start) && Reachable(f, steps, start)
    ensures OneRequest(f) && f.logical >= start.logical
    ensures f.constrained == start.constrained && f.regulating == start.regulating && f.lookahead == start.lookahead
    decreases |steps|
  {
    if steps != [] {
      var n := |steps| - 1;
      var g :| Reachable(g, steps[..n], start) && Enabled(g, steps[n]) && f == Next(g, steps[n]);
      OneRequestReached(g, steps[..n], start);
      hide Reachable, Enabled, Next, OneRequest;
      OneRequestStep(g, steps[n]);
    }
  }

  // ----- Timers on time -----

  lemma ToFireNow(t: Timer, u: int, d: int)
    requires t.due >= u && d in ToFire(t, u)
    ensures d == u
  {
    if t.cyclic { GridFrom(t.due, t.period, u); }
  }

  lemma {:induction false} GridFrom(d: int, p: int, u: int)
    requires d >= u
    ensures forall x :: x in Grid(d, p, u) ==> x == d == u
  {
    if p > 0 && d <= u {
      assert Grid(d + p, p, u) == [];
    }
  }

  lemma {:induction false} RanAtMembers(ran: seq<Ran>, id: Id, d: int)
    ensures d in RanAt(ran, id) <==> exists i :: 0 <= i < |ran| && ran[i].id == id && ran[i].due == d
  {
    if ran != [] {
      var n := |ran| - 1;
      RanAtMembers(ran[..n], id, d);
      assert RanAt(ran, id) == RanAt(ran[..n], id) + if ran[n].id == id then [ran[n].due] else [];
      hide RanAt;
      if d in RanAt(ran[..n], id) {
        var i :| 0 <= i < n && ran[..n][i].id == id && ran[..n][i].due == d;
        assert ran[i].id == id && ran[i].due == d;
      }
      if i: nat :| 0 <= i < |ran| && ran[i].id == id && ran[i].due == d {
        if i < n { assert ran[..n][i].id == id; }
      }
    }
  }

  lemma OnTimeProcess(f: Federate, queue: map<Id, Timer>, ran: seq<Ran>, spawned: map<Id, Timer>)
    requires OnTime(f) && OneRequest(f) && Enabled(f, Process(queue, ran, spawned))
    ensures OnTime(Next(f, Process(queue, ran, spawned)))
  {
    forall r | r in ran ensures r.due == r.logical {
      var i :| 0 <= i < |ran| && ran[i] == r;
      RanAtMembers(ran, r.id, r.due);
      ToFireNow(f.queue[r.id], f.logical, r.due);
    }
    hide ToFire, RanAt, Kept;
  }

  lemma OnTimeStep(f: Federate, step: Step)
    requires OnTime(f) && OneRequest(f) && Enabled(f, step) && (step.Advance? ==> Patient(f))
    ensures OnTime(Next(f, step))
  {
    if step.Process? {
      OnTimeProcess(f, step.queue, step.ran, step.spawned);
    }
  }

  // ----- What each timer owes -----

  /** A timer that ran first ran at its due time, and then owes what it owes from its second one. */
  lemma FiresAt(t: Timer, u: int, dues: seq<int>)
    requires dues != [] && dues <= ToFire(t, u) && t.cyclic
    ensures dues == [t.due] + dues[1..] && ToFire(t, u) == [t.due] + ToFire(t.(due := t.due + t.period), u)
    ensures !t.canceled && t.due <= u
  {
    assert dues[0] == ToFire(t, u)[0];
  }

  lemma FiresAgain(t: Timer, u: int, later: int)
    requires t.cyclic && !t.canceled && t.due <= u <= later && t.period > 0
    ensures ToFire(t, later) == [t.due] + ToFire(t.(due := t.due + t.period), later)
  {
  }

  lemma AfterSecond(t: Timer, n: nat)
    ensures After(t.(due := t.due + t.period), n) == After(t, n + 1)
  {
    AfterFields(t.(due := t.due + t.period), n);
    AfterFields(t, n + 1);
    assert (n + 1) * t.period == n * t.period + t.period;
    hide After;
  }

  lemma SameTail(d: int, rest: seq<int>, x: seq<int>, y: seq<int>)
    ensures ([d] + rest) + x == [d] + y <==> rest + x == y
  {
    assert ([d] + rest) + x == [d] + (rest + x);
    assert rest + x == ([d] + (rest + x))[1..] && y == ([d] + y)[1..];
  }

  /** What a timer still owes at a time, it owes at any later time, and what becomes due until then. */
  lemma {:induction false} OwesLater(t: Timer, dues: seq<int>, u: int, later: int)
    requires (t.cyclic ==> t.period > 0) && u <= later && Owes(t, After(t, |dues|), dues, u)
    ensures Owes(t, After(t, |dues|), dues, later)
    decreases |dues|
  {
    if dues == [] {
      assert dues + ToFire(t, later) == ToFire(t, later);
    } else {
      OwesAfterFirst(t, dues, u, later);
      hide Owes;
      OwesLater(t.(due := t.due + t.period), dues[1..], u, later);
    }
  }

  /** A timer that ran owes what it owes from its second due time on, at this time and at any later one. */
  lemma OwesAfterFirst(t: Timer, dues: seq<int>, u: int, later: int)
    requires (t.cyclic ==> t.period > 0) && u <= later && Owes(t, After(t, |dues|), dues, u) && dues != []
    ensures var second, rest := t.(due := t.due + t.period), dues[1..];
      && (t.cyclic ==> second.period > 0)
      && Owes(second, After(second, |rest|), rest, u)
      && (Owes(second, After(second, |rest|), rest, later) ==> Owes(t, After(t, |dues|), dues, later))
  {
    hide After, ToFire;
    var second, rest, now := t.(due := t.due + t.period), dues[1..], After(t, |dues|);
    assert dues <= ToFire(t, u) by { assert dues + ToFire(now, u) == ToFire(t, u); }
    FiresAt(t, u, dues);
    FiresAgain(t, u, later);
    AfterSecond(t, |rest|);
    SameTail(t.due, rest, ToFire(now, u), ToFire(second, u));
    SameTail(t.due, rest, ToFire(now, later), ToFire(second, later));
  }

  lemma ServedGrant(f: Federate, time: int)
    requires AllServed(f) && Enabled(f, Grant(time))
    ensures AllServed(Next(f, Grant(time)))
  {
    var n := Next(f, Grant(time));
    forall id | id in n.registered ensures Served(n, id) {
      assert Served(f, id);
      if id in f.queue {
        hide ToFire, After, RanAt;
        OwesLater(f.registered[id], RanAt(f.ran, id), f.logical, n.logical);
      }
    }
  }

  lemma {:induction false} RanAtConcat(a: seq<Ran>, b: seq<Ran>, id: Id)
    ensures RanAt(a + b, id) == RanAt(a, id) + RanAt(b, id)
  {
    if b == [] {
      assert a + b == a && RanAt(b, id) == [];
    } else {
      var n := |b| - 1;
      assert (a + b)[..|a| + n] == a + b[..n];
      RanAtConcat(a, b[..n], id);
    }
  }

  lemma {:induction false} RanAtOthers(ran: seq<Ran>, id: Id)
    requires forall r :: r in ran ==> r.id != id
    ensures RanAt(ran, id) == []
  {
    if ran != [] {
      assert ran[|ran| - 1] in ran;
      RanAtOthers(ran[..|ran| - 1], id);
    }
  }

  /** A queued timer was processed: it ran as often as it owed. */
  lemma OwesProcessed(t: Timer, now: Timer, dues: seq<int>, u: int)
    requires Owes(t, now, dues, u)
    ensures var all := dues + ToFire(now, u);
      && all == ToFire(t, u) && now.cyclic == t.cyclic && now.canceled == t.canceled
      && After(now, |ToFire(now, u)|) == After(t, |all|)
      && (dues == [] ==> now == t)
  {
    AfterAgain(t, |dues|, |ToFire(now, u)|);
    AfterFields(t, |dues|);
    hide ToFire, After;
    assert dues == [] ==> now == t by { assert 0 * t.period == 0; }
  }

  lemma AfterAgain(t: Timer, n: nat, k: nat)
    ensures After(After(t, n), k) == After(t, n + k)
  {
    AfterFields(t, n);
    AfterFields(t, n + k);
    AfterFields(After(t, n), k);
    assert (n + k) * t.period == n * t.period + k * t.period;
    hide After;
  }

  lemma QueuedProcessed(f: Federate, next: map<Id, Timer>, ran: seq<Ran>, spawned: map<Id, Timer>, id: Id)
    requires AllServed(f) && f.due && Enabled(f, Process(next, ran, spawned)) && id in f.queue
    ensures Served(Next(f, Process(next, ran, spawned)), id)
  {
    var n := Next(f, Process(next, ran, spawned));
    var t, now, dues := f.registered[id], f.queue[id], RanAt(f.ran, id);
    assert id in f.registered && Served(f, id) && n.registered[id] == t;
    RanAtConcat(f.ran, ran, id);
    hide RanAt, After;
    OwesProcessed(t, now, dues, f.logical);
    var all := dues + ToFire(now, f.logical);
    assert RanAt(n.ran, id) == all && Kept(now, id, f.logical, next);
    if id in next {
      NotDue(next[id], f.logical);
      hide ToFire;
      assert all + [] == all;
      assert t.cyclic || all == [];
    }
  }

  lemma ServedProcess(f: Federate, next: map<Id, Timer>, ran: seq<Ran>, spawned: map<Id, Timer>)
    requires AllServed(f) && f.due && Enabled(f, Process(next, ran, spawned))
    ensures AllServed(Next(f, Process(next, ran, spawned)))
  {
    var n := Next(f, Process(next, ran, spawned));
    forall id | id in n.registered ensures Served(n, id) {
      if id in f.queue {
        hide Served, Enabled;
        QueuedProcessed(f, next, ran, spawned, id);
      } else {
        RanAtConcat(f.ran, ran, id);
        RanAtOthers(ran, id);
        hide RanAt;
        if id in f.registered {
          assert Served(f, id) && id !in next;
          assert RanAt(f.ran, id) + [] == RanAt(f.ran, id);
        } else {
          RanAtOthers(f.ran, id);
          NotDue(next[id], f.logical);
          hide ToFire;
          assert next[id] == spawned[id] == After(next[id], 0);
        }
      }
    }
  }

  lemma ServedStep(f: Federate, step: Step)
    requires AllServed(f) && Enabled(f, step)
    ensures AllServed(Next(f, step))
  {
    hide Served, RanAt;
    if step.Grant? {
      ServedGrant(f, step.time);
    } else if step.Process? && f.due {
      ServedProcess(f, step.queue, step.ran, step.spawned);
    } else {
      ServedFrame(f, Next(f, step));
    }
  }

  lemma ServedFrame(f: Federate, n: Federate)
    requires AllServed(f) && n.logical == f.logical && n.queue == f.queue && n.registered == f.registered
    requires n.ran == f.ran
    ensures AllServed(n)
  {
    hide RanAt, Owes;
    forall id | id in n.registered ensures Served(n, id) {
      assert Served(f, id);
    }
  }

  // ----- Runs -----

  /** In every run, once the timers are processed, each timer ever registered, at the start or by a
      callback, ran exactly at the times it was to fire at until now, in order; unless it is canceled,
      a cyclic one and one that is not due yet are queued at the next time. */
  lemma {:induction false} TimersServed(f: Federate, steps: seq<Step>, start: Federate)
    requires Joined(start) && Reachable(f, steps, start)
    ensures AllServed(f)
    ensures forall id :: id in start.queue ==> id in f.registered && f.registered[id] == start.queue[id]
    decreases |steps|
  {
    if steps == [] {
      StartServed(start);
    } else {
      var n := |steps| - 1;
      var g :| Reachable(g, steps[..n], start) && Enabled(g, steps[n]) && f == Next(g, steps[n]);
      TimersServed(g, steps[..n], start);
      RegisteredStays(g, steps[n]);
      hide Reachable, Enabled, Next, AllServed, Joined;
      ServedStep(g, steps[n]);
    }
  }

  lemma StartServed(start: Federate)
    requires Joined(start)
    ensures AllServed(start)
  {
    forall id | id in start.registered ensures Served(start, id) {
      NotDue(start.registered[id], start.logical);
      hide ToFire;
      assert start.queue[id] == After(start.queue[id], 0);
    }
  }

  lemma RegisteredStays(f: Federate, step: Step)
    requires Enabled(f, step)
    ensures forall id :: id in f.registered ==>
      id in Next(f, step).registered && Next(f, step).registered[id] == f.registered[id]
  {
    hide ProcessedUntil;
  }

  lemma {:induction false} PatientlyIsReachable(f: Federate, steps: seq<Step>, start: Federate)
    requires ReachablePatiently(f, steps, start)
    ensures Reachable(f, steps, start)
    decreases |steps|
  {
    if steps == [] {
      assert Reachable(f, steps, start);
    } else {
      var n := |steps| - 1;
      var g :| ReachablePatiently(g, steps[..n], start) && Enabled(g, steps[n]) && f == Next(g, steps[n]);
      hide ReachablePatiently, Enabled, Next;
      PatientlyIsReachable(g, steps[..n], start);
    }
  }

  lemma {:induction false} OnTimeReached(f: Federate, steps: seq<Step>, start: Federate)
    requires Joined(start) && ReachablePatiently(f, steps, start)
    ensures OnTime(f) && OneRequest(f)
    decreases |steps|
  {
    if steps != [] {
      var n := |steps| - 1;
      var g :| ReachablePatiently(g, steps[..n], start) && Enabled(g, steps[n]) && (steps[n].Advance? ==> Patient(g))
        && f == Next(g, steps[n]);
      OnTimeReached(g, steps[..n], start);
      hide ReachablePatiently, Enabled, Next, OneRequest, OnTime, Patient;
      OneRequestStep(g, steps[n]);
      OnTimeStep(g, steps[n]);
    }
  }

  /** On-time timers: in every patient run, a timer registered at the start or by a callback has run
      at each time it was to fire at until now, when the logical time was that time, once, and at no
      other. Unless it is canceled, a cyclic timer and one that is not due yet are still queued, due
      at the next of these times. While timers are yet to be processed, only those due now are owed. */
  lemma TimersOnTime(f: Federate, steps: seq<Step>, start: Federate)
    requires Joined(start) && ReachablePatiently(f, steps, start)
    ensures forall r :: r in f.ran ==> r.due == r.logical && r.id in f.registered
    ensures forall id :: id in start.queue ==> id in f.registered && f.registered[id] == start.queue[id]
    ensures forall id :: id in f.registered && !f.due ==> RanAt(f.ran, id) == ToFire(f.registered[id], f.logical)
    ensures forall id, d :: id in f.registered && d in ToFire(f.registered[id], f.logical) ==>
      (f.due && d >= f.logical) || Ran(id, d, d) in f.ran
    ensures forall id :: id in f.registered && !f.due ==> Waits(f.registered[id], id, f)
  {
    PatientlyIsReachable(f, steps, start);
    TimersServed(f, steps, start);
    OnTimeReached(f, steps, start);
    hide Joined, Reachable, ReachablePatiently, ToFire, RanAt, After;
    forall id | id in f.registered
      ensures !f.due ==> RanAt(f.ran, id) == ToFire(f.registered[id], f.logical)
      ensures !f.due ==> Waits(f.registered[id], id, f)
    {
      assert Served(f, id);
      if !f.due && id in f.queue {
        NotDue(f.queue[id], f.logical);
        assert RanAt(f.ran, id) + [] == RanAt(f.ran, id);
      }
    }
    forall id, d | id in f.registered && d in ToFire(f.registered[id], f.logical) && (f.due ==> d < f.logical)
      ensures Ran(id, d, d) in f.ran
    {
      RanBefore(f, id, d);
    }
  }

  lemma RanBefore(f: Federate, id: Id, d: int)
    requires AllServed(f) && OnTime(f) && id in f.registered
    requires d in ToFire(f.registered[id], f.logical) && (f.due ==> d < f.logical)
    ensures Ran(id, d, d) in f.ran
  {
    assert Served(f, id);
    if id in f.queue {
      var now := f.queue[id];
      if d in ToFire(now, f.logical) {
        ToFireNow(now, f.logical, d);
        assert !f.due;
        NotDue(now, f.logical);
      }
    }
    hide ToFire, RanAt, After;
    assert d in RanAt(f.ran, id);
    RanAtMembers(f.ran, id, d);
    var i :| 0 <= i < |f.ran| && f.ran[i].id == id && f.ran[i].due == d;
    assert f.ran[i] in f.ran;
  }

  // ----- Requests -----

  lemma FiresFirst(t: Timer, u: int)
    requires !t.canceled && t.due <= u && (t.cyclic ==> t.period > 0)
    ensures t.due in ToFire(t, u)
  {
    assert ToFire(t, u)[0] == t.due;
  }

  /** A live timer due runs when the timers are processed. */
  lemma DueTimerRuns(f: Federate, id: Id, queue: map<Id, Timer>, ran: seq<Ran>, spawned: map<Id, Timer>)
    requires f.due && Enabled(f, Process(queue, ran, spawned)) && id in f.queue
    requires var t := f.queue[id]; !t.canceled && t.due <= f.logical && (t.cyclic ==> t.period > 0)
    ensures Ran(id, f.queue[id].due, f.logical) in Next(f, Process(queue, ran, spawned)).ran
  {
    var d := f.queue[id].due;
    FiresFirst(f.queue[id], f.logical);
    RanAtMembers(ran, id, d);
    hide ToFire, RanAt, Kept;
    var i :| 0 <= i < |ran| && ran[i].id == id && ran[i].due == d;
    assert ran[i] in ran && ran[i] == Ran(id, d, f.logical);
  }

  /** With timers on time and no user request, a request is made for the earliest due time, so that
      no federate with a timer waits forever without having asked to advance. */
  lemma RequestsNextTimer(f: Federate, first: Option<int>)
    requires OnTime(f) && OneRequest(f) && f.pending == None && f.user <= f.logical
    requires f.queue != map[] && Enabled(f, Advance(first))
    ensures first.Some?
    ensures Next(f, Advance(first)).pending ==
      Some(if f.constrained then NextMessage(first.value) else TimeAdvance(first.value))
  {
  }

  /** Without a timer and a user request, a constrained federate asks for the next message up to the end
      of time, less its lookahead, and one that is only regulating asks for nothing. */
  lemma RequestsNextMessage(f: Federate)
    requires OneRequest(f) && f.pending == None && !f.due && f.user <= f.logical && f.queue == map[] && f.logical >= 0
    ensures Enabled(f, Advance(None))
    ensures Next(f, Advance(None)).pending ==
      var last := END_OF_TIME - f.lookahead - 1;
      if f.constrained && last > f.logical then Some(NextMessage(last)) else None
  {
  }

  /** A later time that the user asked for is requested before any timer's. */
  lemma RequestsUserTime(f: Federate, first: Option<int>)
    requires OneRequest(f) && f.pending == None && f.user > f.logical && Enabled(f, Advance(first))
    ensures Next(f, Advance(first)).pending == Some(if f.constrained then NextMessage(f.user) else TimeAdvance(f.user))
  {
  }

  /** A request keeps the timers on time exactly when the user did not ask for a time beyond a
      queued timer; otherwise a live timer runs late once that time is granted. */
  lemma RequestKeepsOnTime(f: Federate, first: Option<int>)
    requires OnTime(f) && OneRequest(f) && f.pending == None && Enabled(f, Advance(first))
    ensures OnTime(Next(f, Advance(first))) <==> Patient(f)
  {
    if Patient(f) {
      OnTimeStep(f, Advance(first));
    }
  }

  lemma ImpatientRunsLate(
      f: Federate, first: Option<int>, id: Id, queue: map<Id, Timer>, ran: seq<Ran>, spawned: map<Id, Timer>)
    requires OnTime(f) && OneRequest(f) && f.pending == None && Enabled(f, Advance(first)) && id in f.queue
    requires var t := f.queue[id]; !t.canceled && (t.cyclic ==> t.period > 0) && t.due < f.user
    ensures var a := Next(f, Advance(first));
      && Enabled(a, Grant(f.user))
      && var b := Next(a, Grant(f.user));
         Enabled(b, Process(queue, ran, spawned)) ==>
           Ran(id, f.queue[id].due, f.user) in Next(b, Process(queue, ran, spawned)).ran
  {
    var b := Next(Next(f, Advance(first)), Grant(f.user));
    if Enabled(b, Process(queue, ran, spawned)) {
      hide ProcessedUntil, FirstDue;
      DueTimerRuns(b, id, queue, ran, spawned);
    }
  }

  lemma ReachedMore(f: Federate, steps: seq<Step>, start: Federate, step: Step)
    requires Reachable(f, steps, start) && Enabled(f, step)
    ensures Reachable(Next(f, step), steps + [step], start)
  {
    hide Enabled, Next;
    assert (steps + [step])[..|steps|] == steps;
  }

  /** A regulating federate at 0 with a one-shot timer due at 10. */
  function OneTimer(): Federate {
    var queue := map[0 := Timer(10, 10, 0, false, false)];
    Federate(false, true, 0, 0, None, false, 0, queue, queue, [])
  }

  /** Such a run: the user requests 20, and the timer due at 10 runs at 20. */
  lemma ImpatientRun() returns (f: Federate, steps: seq<Step>)
    ensures Joined(OneTimer()) && Reachable(f, steps, OneTimer()) && f.ran == [Ran(0, 10, 20)]
  {
    var a := OneTimer();
    var b := a.(user := 20);
    var c := b.(pending := Some(TimeAdvance(20)));
    var d := c.(pending := None, logical := 20, due := true);
    var last := Process(map[], [Ran(0, 10, 20)], map[]);
    assert Next(a, UserRequest(20)) == b && Next(b, Advance(Some(10))) == c && Next(c, Grant(20)) == d;
    assert FirstDue(b.queue, Some(10)) by { assert b.queue[0].due == 10; }
    OneTimerFires();
    assert Reachable(a, [], a);
    hide Reachable, Next, ProcessedUntil;
    ReachedMore(a, [], a, UserRequest(20));
    ReachedMore(b, [] + [UserRequest(20)], a, Advance(Some(10)));
    ReachedMore(c, [] + [UserRequest(20)] + [Advance(Some(10))], a, Grant(20));
    steps := [] + [UserRequest(20)] + [Advance(Some(10))] + [Grant(20)];
    ReachedMore(d, steps, a, last);
    f, steps := Next(d, last), steps + [last];
    OneTimerRan(d);
  }

  lemma OneTimerFires()
    ensures ProcessedUntil(OneTimer().queue, 20, map[], map[], [Ran(0, 10, 20)])
  {
    var ran := [Ran(0, 10, 20)];
    assert ran[..0] == [] && RanAt(ran, 0) == [10];
  }

  lemma OneTimerRan(d: Federate)
    requires d.ran == []
    ensures Next(d, Process(map[], [Ran(0, 10, 20)], map[])).ran == [Ran(0, 10, 20)]
  {
  }

  // ----- Every live timer gets to run -----

  lemma RanAtOne(x: Id, u: int, id: Id)
    ensures RanAt([Ran(x, u, u)], id) == if id == x then [u] else []
  {
    assert [Ran(x, u, u)][..0] == [];
  }

  /** The callbacks of these timers, all due at u, in some order. */
  lemma {:induction false} RunOnce(ids: set<Id>, u: int) returns (ran: seq<Ran>)
    ensures forall r :: r in ran ==> r.id in ids && r.due == u && r.logical == u
    ensures forall id :: RanAt(ran, id) == if id in ids then [u] else []
    decreases ids
  {
    if ids == {} {
      ran := [];
    } else {
      var x :| x in ids;
      var rest := RunOnce(ids - {x}, u);
      ran := rest + [Ran(x, u, u)];
      hide RanAt;
      forall id ensures RanAt(ran, id) == if id in ids then [u] else [] {
        RanAtConcat(rest, [Ran(x, u, u)], id);
        RanAtOne(x, u, id);
      }
    }
  }

  lemma FiresOnce(t: Timer, u: int)
    requires t.due >= u && (t.cyclic ==> t.period > 0)
    ensures ToFire(t, u) == if !t.canceled && t.due == u then [u] else []
  {
    if t.cyclic && t.due == u { assert Grid(u + t.period, t.period, u) == []; }
  }

  lemma KeptProcessed(queue: map<Id, Timer>, u: int, id: Id)
    requires id in queue && queue[id].due >= u && (queue[id].cyclic ==> queue[id].period > 0)
    ensures Kept(queue[id], id, u, Processed(queue, u))
    ensures ToFire(queue[id], u) == if !queue[id].canceled && queue[id].due == u then [u] else []
    ensures id in Processed(queue, u) ==>
      var t := Processed(queue, u)[id];
      t.due > u && t.due >= queue[id].due && (t.cyclic ==> t.period > 0)
    ensures queue[id].due > u ==> id in Processed(queue, u) && Processed(queue, u)[id] == queue[id]
  {
    FiresOnce(queue[id], u);
    AfterFields(queue[id], 0);
    AfterFields(queue[id], 1);
    hide ToFire, After;
  }

  /** Timers on time can be processed: those due now run once, in any order. */
  lemma CanProcess(queue: map<Id, Timer>, u: int) returns (next: map<Id, Timer>, ran: seq<Ran>)
    requires forall id :: id in queue ==> queue[id].due >= u && (queue[id].cyclic ==> queue[id].period > 0)
    ensures ProcessedUntil(queue, u, map[], next, ran)
    ensures forall id :: id in next ==> id in queue && next[id].due >= queue[id].due
    ensures forall id :: id in queue && queue[id].due > u ==> id in next && next[id] == queue[id]
  {
    next := Processed(queue, u);
    assert forall id :: id in next ==> id in queue;
    hide Processed;
    forall id | id in queue
      ensures Kept(queue[id], id, u, next)
      ensures ToFire(queue[id], u) == if !queue[id].canceled && queue[id].due == u then [u] else []
      ensures id in next ==> next[id].due > u && (next[id].cyclic ==> next[id].period > 0)
      ensures id in next ==> next[id].due >= queue[id].due
      ensures queue[id].due > u ==> id in next && next[id] == queue[id]
    {
      KeptProcessed(queue, u, id);
    }
    var now := set id | id in queue && !queue[id].canceled && queue[id].due == u;
    ran := RunOnce(now, u);
    hide ToFire, RanAt, Kept;
  }

  lemma {:induction false} FirstAmong(queue: map<Id, Timer>, ids: set<Id>) returns (x: Id)
    requires ids != {} && ids <= queue.Keys
    ensures x in ids && forall id :: id in ids ==> queue[x].due <= queue[id].due
    decreases ids
  {
    x :| x in ids;
    if ids != {x} {
      var y := FirstAmong(queue, ids - {x});
      x := if queue[y].due < queue[x].due then y else x;
    }
  }

  lemma FirstExists(queue: map<Id, Timer>) returns (first: Option<int>)
    ensures FirstDue(queue, first)
  {
    if queue == map[] {
      first := None;
    } else {
      assert queue.Keys != {};
      var x := FirstAmong(queue, queue.Keys);
      first := Some(queue[x].due);
    }
  }

  lemma RunMore(f: Federate, steps: seq<Step>, start: Federate, step: Step)
    requires ReachablePatiently(f, steps, start) && Enabled(f, step) && (step.Advance? ==> Patient(f))
    ensures ReachablePatiently(Next(f, step), steps + [step], start)
  {
    hide Enabled, Next, Patient;
    assert (steps + [step])[..|steps|] == steps;
  }

  /** Processing the timers. */
  lemma ProcessNearer(f: Federate, id: Id) returns (step: Step)
    requires AllServed(f) && OnTime(f) && Patient(f) && f.due && id in f.queue && !f.queue[id].canceled
    ensures step.Process? && Enabled(f, step) && Patient(Next(f, step))
    ensures Next(f, step).logical == f.logical && !Next(f, step).due
    ensures f.queue[id].due == f.logical ==> Ran(id, f.logical, f.logical) in Next(f, step).ran
    ensures f.queue[id].due > f.logical ==> id in Next(f, step).queue && Next(f, step).queue[id] == f.queue[id]
  {
    forall x | x in f.queue ensures f.queue[x].due >= f.logical && (f.queue[x].cyclic ==> f.queue[x].period > 0) {
      assert Served(f, x);
      AfterFields(f.registered[x], |RanAt(f.ran, x)|);
      hide After, ToFire, RanAt;
    }
    hide AllServed;
    var next, ran := CanProcess(f.queue, f.logical);
    step := Process(next, ran, map[]);
    if f.queue[id].due == f.logical {
      hide ProcessedUntil;
      DueTimerRuns(f, id, next, ran, map[]);
    }
    hide ProcessedUntil;
  }

  /** Making the request for the earliest timer, or for the user's earlier time. */
  lemma AdvanceNearer(f: Federate) returns (step: Step)
    requires OneRequest(f) && OnTime(f) && Patient(f) && !f.due && f.pending == None && f.queue != map[]
    ensures step.Advance? && Enabled(f, step)
    ensures Next(f, step).pending.Some? && Next(f, step).queue == f.queue && Next(f, step).logical == f.logical
    ensures Patient(Next(f, step)) && !Next(f, step).due
  {
    var first := FirstExists(f.queue);
    step := Advance(first);
  }

  /** A step towards a timer: it runs, or it stays queued and its due time or the phase is nearer. */
  lemma StepNearer(f: Federate, id: Id) returns (step: Step)
    requires AllServed(f) && OnTime(f) && OneRequest(f) && Patient(f) && id in f.queue && !f.queue[id].canceled
    ensures Enabled(f, step) && !step.UserRequest? && Patient(Next(f, step))
    ensures var d, g := f.queue[id].due, Next(f, step);
      Ran(id, d, d) in g.ran
      || (id in g.queue && g.queue[id] == f.queue[id] && f.logical <= g.logical <= d
          && (f.logical < g.logical || Phase(g) < Phase(f)))
  {
    DueLater(f, id);
    hide AllServed, Enabled, Next, Patient, OnTime, OneRequest;
    if f.due {
      step := ProcessNearer(f, id);
    } else if f.pending.None? {
      step := AdvanceNearer(f);
    } else {
      step := GrantNearer(f, id);
    }
  }

  lemma DueLater(f: Federate, id: Id)
    requires OnTime(f) && id in f.queue
    ensures f.queue[id].due >= f.logical
  {
  }

  lemma GrantNearer(f: Federate, id: Id) returns (step: Step)
    requires OneRequest(f) && OnTime(f) && Patient(f) && f.pending.Some? && id in f.queue
    ensures Enabled(f, step) && !step.UserRequest? && Patient(Next(f, step)) && Next(f, step).queue == f.queue
    ensures f.logical < Next(f, step).logical <= f.queue[id].due
  {
    step := Grant(f.pending.value.time);
  }

  lemma Onwards(steps: seq<Step>, step: Step, rest: seq<Step>)
    ensures steps + [step] + rest == steps + ([step] + rest)
    ensures !step.UserRequest? ==> WithoutUser([step]) && (WithoutUser(rest) ==> WithoutUser([step] + rest))
  {
  }

  /** From every state of a patient run, granting what is asked for, processing timers and asking
      again is possible and comes to each live timer in the queue: it runs, when the logical time is
      its due time. */
  lemma {:induction false} LiveTimerRuns(f: Federate, steps: seq<Step>, start: Federate, id: Id)
    returns (end: Federate, more: seq<Step>)
    requires Joined(start) && ReachablePatiently(f, steps, start) && Patient(f)
    requires id in f.queue && !f.queue[id].canceled
    ensures ReachablePatiently(end, steps + more, start) && WithoutUser(more)
    ensures Ran(id, f.queue[id].due, f.queue[id].due) in end.ran
    decreases f.queue[id].due - f.logical, Phase(f)
  {
    PatientlyIsReachable(f, steps, start);
    TimersServed(f, steps, start);
    OnTimeReached(f, steps, start);
    hide *;
    var step := StepNearer(f, id);
    RunMore(f, steps, start, step);
    var g, d := Next(f, step), f.queue[id].due;
    if Ran(id, d, d) in g.ran {
      Onwards(steps, step, []);
      end, more := g, [step];
    } else {
      var rest;
      end, rest := LiveTimerRuns(g, steps + [step], start, id);
      Onwards(steps, step, rest);
      more := [step] + rest;
    }
  }
}

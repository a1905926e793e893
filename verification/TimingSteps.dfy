/** What the timing service does when it processes timers and asks for an advance is what a step of
    a run does, under any naming of its timers. */
module TimingSteps {
  import opened Wrappers
  import opened Timers
  import opened TimingServices
  import opened TimingModel

  /** Each timer has a name, and no two share one. */
  ghost predicate Naming(name: map<UserTimer, Id>, ts: seq<UserTimer>) {
    && (forall t :: t in ts ==> t in name)
    && (forall s, t :: s in ts && t in ts && name[s] == name[t] ==> s == t)
  }

  /** The queue of a run: what the timers are, by name. */
  ghost function Named(name: map<UserTimer, Id>, ts: seq<UserTimer>, views: seq<Timer>): map<Id, Timer>
    requires Naming(name, ts) && DistinctTimers(ts) && |views| == |ts|
  {
    map i | 0 <= i < |ts| :: name[ts[i]] := views[i]
  }

  lemma NamedMembers(name: map<UserTimer, Id>, ts: seq<UserTimer>, views: seq<Timer>)
    requires Naming(name, ts) && DistinctTimers(ts) && |views| == |ts|
    ensures forall i :: 0 <= i < |ts| ==> name[ts[i]] in Named(name, ts, views)
    ensures forall i :: 0 <= i < |ts| ==> Named(name, ts, views)[name[ts[i]]] == views[i]
    ensures forall id :: id in Named(name, ts, views) ==> exists i :: 0 <= i < |ts| && name[ts[i]] == id
  {
  }

  /** The callbacks that ran at a logical time, by name. */
  function RanBy(name: map<UserTimer, Id>, log: seq<Firing>, u: int): (r: seq<Ran>)
    requires forall f :: f in log ==> f.timer in name
    ensures |r| == |log| && forall i :: 0 <= i < |log| ==> r[i] == Ran(name[log[i].timer], log[i].due, u)
  {
    seq(|log|, i requires 0 <= i < |log| => assert log[i] in log; Ran(name[log[i].timer], log[i].due, u))
  }

  /** A timer ran as often under its name. */
  lemma {:induction false} RanAtIsDues(
      name: map<UserTimer, Id>, ts: seq<UserTimer>, log: seq<Firing>, u: int, t: UserTimer)
    requires Naming(name, ts) && t in ts && forall f :: f in log ==> f.timer in ts
    ensures RanAt(RanBy(name, log, u), name[t]) == Dues(log, t)
  {
    if log != [] {
      var n := |log| - 1;
      assert log[n] in log && RanBy(name, log, u)[..n] == RanBy(name, log[..n], u);
      RanAtIsDues(name, ts, log[..n], u, t);
    }
  }

  lemma NamedParts(name: map<UserTimer, Id>, a: seq<UserTimer>, b: seq<UserTimer>)
    requires Naming(name, a + b)
    ensures Naming(name, a) && Naming(name, b)
  {
    assert forall t :: t in a || t in b ==> t in a + b;
  }

  lemma KeptNamed(
      name: map<UserTimer, Id>, q0: seq<UserTimer>, was: seq<Timer>, queue: seq<UserTimer>, i: nat, u: int)
    requires |was| == |q0| && i < |q0| && DistinctTimers(queue) && Naming(name, q0 + queue)
    requires KeptAs(q0[i].View(), q0[i] in queue, was[i], u)
    ensures Kept(was[i], name[q0[i]], u, Named(name, queue, Views(queue)))
  {
    var after := Named(name, queue, Views(queue));
    NamedMembers(name, queue, Views(queue));
    hide Named, ToFire, After;
    if q0[i] in queue {
      var k :| 0 <= k < |queue| && queue[k] == q0[i];
      assert after[name[q0[i]]] == Views(queue)[k];
    } else {
      assert name[q0[i]] !in after by {
        assert forall k :: 0 <= k < |queue| ==> queue[k] in q0 + queue;
        assert q0[i] in q0 + queue;
      }
    }
  }

  lemma OldNamed(
      name: map<UserTimer, Id>, q0: seq<UserTimer>, was: seq<Timer>, queue: seq<UserTimer>, log: seq<Firing>, u: int)
    requires AllRan(q0, was, queue, log, u) && forall t :: t in queue ==> t.mNextAbsoluteDueTime > u
    requires DistinctTimers(q0) && Queue(queue) && Naming(name, q0 + queue)
    ensures Naming(name, q0)
    ensures var before, after := Named(name, q0, was), Named(name, queue, Views(queue));
      forall id :: id in before ==>
        RanAt(RanBy(name, log, u), id) == ToFire(before[id], u) && Kept(before[id], id, u, after)
  {
    NamedParts(name, q0, queue);
    var before, after := Named(name, q0, was), Named(name, queue, Views(queue));
    NamedMembers(name, q0, was);
    hide Dues, RanAt, ToFire, Named, KeptAs, Kept, Naming;
    forall id | id in before
      ensures RanAt(RanBy(name, log, u), id) == ToFire(before[id], u) && Kept(before[id], id, u, after)
    {
      var i :| 0 <= i < |q0| && name[q0[i]] == id;
      assert before[id] == was[i];
      RanAtIsDues(name, q0, log, u, q0[i]);
      KeptNamed(name, q0, was, queue, i, u);
    }
  }

  lemma RanNamed(
      name: map<UserTimer, Id>, q0: seq<UserTimer>, was: seq<Timer>, queue: seq<UserTimer>, log: seq<Firing>, u: int)
    requires AllRan(q0, was, queue, log, u) && forall t :: t in queue ==> t.mNextAbsoluteDueTime > u
    requires DistinctTimers(q0) && Queue(queue) && Naming(name, q0 + queue)
    ensures Naming(name, q0)
    ensures var ran := RanBy(name, log, u);
      && (forall r :: r in ran ==> r.id in Named(name, q0, was) && r.logical == u)
      && (forall i, j :: 0 <= i < j < |ran| ==> ran[i].due <= ran[j].due)
  {
    NamedParts(name, q0, queue);
    NamedMembers(name, q0, was);
    hide Named, Dues, ToFire, KeptAs;
    var ran := RanBy(name, log, u);
    forall r | r in ran ensures r.id in Named(name, q0, was) && r.logical == u {
      var i :| 0 <= i < |log| && ran[i] == r;
      assert log[i] in log;
    }
  }

  lemma QueuedNamed(
      name: map<UserTimer, Id>, q0: seq<UserTimer>, was: seq<Timer>, queue: seq<UserTimer>, log: seq<Firing>, u: int)
    requires AllRan(q0, was, queue, log, u) && forall t :: t in queue ==> t.mNextAbsoluteDueTime > u
    requires DistinctTimers(q0) && Queue(queue) && Naming(name, q0 + queue)
    ensures Naming(name, q0)
    ensures var after := Named(name, queue, Views(queue));
      forall id :: id in after ==> after[id].due > u && (after[id].cyclic ==> after[id].period > 0)
  {
    NamedParts(name, q0, queue);
    var after := Named(name, queue, Views(queue));
    NamedMembers(name, queue, Views(queue));
    hide Named, Dues, ToFire, KeptAs;
    forall id | id in after ensures after[id].due > u && (after[id].cyclic ==> after[id].period > 0) {
      var i :| 0 <= i < |queue| && name[queue[i]] == id;
      assert queue[i] in queue && after[id] == queue[i].View();
    }
  }

  lemma RegisteredAreNamed(name: map<UserTimer, Id>, q0: seq<UserTimer>, queue: seq<UserTimer>,
      registered: seq<UserTimer>)
    requires Naming(name, q0 + queue) && Entered(q0, queue, registered, true)
    ensures Naming(name, registered) && forall t :: t in registered ==> t in queue && t !in q0
  {
    assert forall t :: t in registered ==> t in q0 + queue;
  }

  lemma NotBefore(name: map<UserTimer, Id>, q0: seq<UserTimer>, was: seq<Timer>, queue: seq<UserTimer>, t: UserTimer)
    requires |was| == |q0| && DistinctTimers(q0) && Naming(name, q0 + queue) && t in queue && t !in q0
    ensures Naming(name, q0) && name[t] !in Named(name, q0, was)
  {
    NamedParts(name, q0, queue);
    NamedMembers(name, q0, was);
    hide Named;
    assert t in q0 + queue && forall j :: 0 <= j < |q0| ==> q0[j] in q0 + queue && q0[j] in q0;
  }

  lemma NewOne(name: map<UserTimer, Id>, q0: seq<UserTimer>, was: seq<Timer>, queue: seq<UserTimer>,
      registered: seq<UserTimer>, specs: seq<TimerSpec>, k: nat)
    requires |was| == |q0| && DistinctTimers(q0) && DistinctTimers(queue) && Naming(name, q0 + queue)
    requires Registered(registered, specs) && Entered(q0, queue, registered, true)
    ensures Naming(name, q0) && Naming(name, queue) && Naming(name, registered)
    requires k < |specs|
    ensures var id := name[registered[k]];
      var before, after := Named(name, q0, was), Named(name, queue, Views(queue));
      var added := Named(name, registered, Views(registered));
      id !in before && id in after && id in added && after[id] == added[id] == Created(specs[k])
  {
    NamedParts(name, q0, queue);
    RegisteredAreNamed(name, q0, queue, registered);
    NamedMembers(name, queue, Views(queue));
    NamedMembers(name, registered, Views(registered));
    hide Named, Naming, Entered;
    assert registered[k] in registered;
    var i :| 0 <= i < |queue| && queue[i] == registered[k];
    NotBefore(name, q0, was, queue, queue[i]);
  }

  /** The timers that callbacks registered are new in the queue of the run, as created. */
  lemma NewNamed(name: map<UserTimer, Id>, q0: seq<UserTimer>, was: seq<Timer>, queue: seq<UserTimer>,
      registered: seq<UserTimer>, specs: seq<TimerSpec>)
    requires |was| == |q0| && DistinctTimers(q0) && DistinctTimers(queue) && Naming(name, q0 + queue)
    requires Registered(registered, specs) && Entered(q0, queue, registered, true)
    ensures Naming(name, q0) && Naming(name, queue) && Naming(name, registered)
    ensures var before, after := Named(name, q0, was), Named(name, queue, Views(queue));
      var added := Named(name, registered, Views(registered));
      && (forall id :: id in added ==> id !in before && id in after && after[id] == added[id] && !added[id].canceled)
      && (forall k :: 0 <= k < |specs| ==>
            name[registered[k]] in added && added[name[registered[k]]] == Created(specs[k]))
      && (specs == [] ==> added == map[])
  {
    NamedParts(name, q0, queue);
    RegisteredAreNamed(name, q0, queue, registered);
    var before, after := Named(name, q0, was), Named(name, queue, Views(queue));
    var added := Named(name, registered, Views(registered));
    NamedMembers(name, registered, Views(registered));
    hide Named, Entered, Naming, Views;
    forall k | 0 <= k < |specs|
      ensures var id := name[registered[k]];
        id !in before && id in after && id in added && after[id] == added[id] == Created(specs[k])
    {
      NewOne(name, q0, was, queue, registered, specs, k);
    }
  }

  /** Nothing else is new in it. */
  lemma OnlyNewNamed(name: map<UserTimer, Id>, q0: seq<UserTimer>, was: seq<Timer>, queue: seq<UserTimer>,
      registered: seq<UserTimer>, specs: seq<TimerSpec>)
    requires |was| == |q0| && DistinctTimers(q0) && DistinctTimers(queue) && Naming(name, q0 + queue)
    requires Registered(registered, specs) && Entered(q0, queue, registered, true)
    ensures Naming(name, q0) && Naming(name, queue) && Naming(name, registered)
    ensures var before, after := Named(name, q0, was), Named(name, queue, Views(queue));
      forall id :: id in after && id !in before ==> id in Named(name, registered, Views(registered))
  {
    NamedParts(name, q0, queue);
    RegisteredAreNamed(name, q0, queue, registered);
    var before, after := Named(name, q0, was), Named(name, queue, Views(queue));
    var added := Named(name, registered, Views(registered));
    NamedMembers(name, q0, was);
    NamedMembers(name, queue, Views(queue));
    NamedMembers(name, registered, Views(registered));
    hide Named, Naming;
    forall id | id in after && id !in before ensures id in added {
      var i :| 0 <= i < |queue| && name[queue[i]] == id;
      assert queue[i] in queue && queue[i] !in q0;
      var k :| 0 <= k < |registered| && registered[k] == queue[i];
    }
  }

  lemma ProcessedFrom(queue: map<Id, Timer>, u: int, spawned: map<Id, Timer>, next: map<Id, Timer>, ran: seq<Ran>)
    requires forall id :: id in queue ==> RanAt(ran, id) == ToFire(queue[id], u) && Kept(queue[id], id, u, next)
    requires forall r :: r in ran ==> r.id in queue && r.logical == u
    requires forall i, j :: 0 <= i < j < |ran| ==> ran[i].due <= ran[j].due
    requires forall id :: id in next ==> next[id].due > u && (next[id].cyclic ==> next[id].period > 0)
    requires forall id :: id in spawned ==>
      id !in queue && id in next && next[id] == spawned[id] && !spawned[id].canceled
    requires forall id :: id in next && id !in queue ==> id in spawned
    requires ran == [] ==> spawned == map[]
    ensures ProcessedUntil(queue, u, spawned, next, ran)
  {
    hide RanAt, ToFire, Kept;
  }

  lemma QueueDistinctTimers(queue: seq<UserTimer>)
    requires Queue(queue)
    ensures DistinctTimers(queue)
  {
  }

  lemma SameSize(q0: seq<UserTimer>, was: seq<Timer>, queue: seq<UserTimer>, log: seq<Firing>, u: int)
    requires AllRan(q0, was, queue, log, u)
    ensures |was| == |q0|
  {
  }

  lemma NoneSpawned(spawn: nat -> seq<TimerSpec>)
    ensures Spawned(spawn, 0) == []
  {
  }

  /** What ProcessUserTimers ensures is what a Process step of an online federate assumes: every naming
      of the timers that were and are queued makes it one, and the timers spawned in it are those that
      the callbacks registered. */
  lemma ServiceProcesses(
      name: map<UserTimer, Id>, q0: seq<UserTimer>, was: seq<Timer>, queue: seq<UserTimer>,
      registered: seq<UserTimer>, spawn: nat -> seq<TimerSpec>, log: seq<Firing>, u: int)
    requires AllRan(q0, was, queue, log, u) && forall t :: t in queue ==> t.mNextAbsoluteDueTime > u
    requires DistinctTimers(q0) && Queue(queue) && Naming(name, q0 + queue)
    requires Registered(registered, Spawned(spawn, |log|)) && Entered(q0, queue, registered, true)
    ensures Naming(name, q0) && Naming(name, registered)
    ensures var added := Named(name, registered, Views(registered));
      && ProcessedUntil(Named(name, q0, was), u, added, Named(name, queue, Views(queue)), RanBy(name, log, u))
      && forall k :: 0 <= k < |Spawned(spawn, |log|)| ==>
           name[registered[k]] in added && added[name[registered[k]]] == Created(Spawned(spawn, |log|)[k])
  {
    QueueDistinctTimers(queue);
    NamedParts(name, q0, queue);
    SameSize(q0, was, queue, log, u);
    hide *;
    OldNamed(name, q0, was, queue, log, u);
    RanNamed(name, q0, was, queue, log, u);
    QueuedNamed(name, q0, was, queue, log, u);
    NewNamed(name, q0, was, queue, registered, Spawned(spawn, |log|));
    OnlyNewNamed(name, q0, was, queue, registered, Spawned(spawn, |log|));
    NoneSpawned(spawn);
    ProcessedFrom(Named(name, q0, was), u, Named(name, registered, Views(registered)),
      Named(name, queue, Views(queue)), RanBy(name, log, u));
  }

  /** What TimeRequest asks for is what an Advance step asks for. */
  lemma ServiceAdvances(name: map<UserTimer, Id>, queue: seq<UserTimer>, first: Option<int>)
    requires DistinctTimers(queue) && Naming(name, queue) && EarliestDue(Views(queue), first)
    ensures FirstDue(Named(name, queue, Views(queue)), first)
  {
    NamedMembers(name, queue, Views(queue));
    if first.Some? {
      var i :| 0 <= i < |queue| && Views(queue)[i].due == first.value;
      assert name[queue[i]] in Named(name, queue, Views(queue));
      forall id | id in Named(name, queue, Views(queue))
        ensures first.value <= Named(name, queue, Views(queue))[id].due
      {
        var k :| 0 <= k < |queue| && name[queue[k]] == id;
        assert Views(queue)[k] in Views(queue);
      }
    }
  }

  /** What OnJoined ensures is where a run starts, when every timer's first due time is later than the
      time it is shifted by. */
  lemma ServiceJoins(name: map<UserTimer, Id>, queue: seq<UserTimer>, was: seq<Timer>, joinedAt: int,
      constrained: bool, regulating: bool, lookahead: int)
    requires DistinctTimers(queue) && Naming(name, queue) && |was| == |queue|
    requires forall i :: 0 <= i < |queue| ==>
      queue[i].View() == Restarted(was[i]).(due := was[i].offset + was[i].period + joinedAt)
    requires forall t :: t in was ==> t.offset + t.period > 0 && (t.cyclic ==> t.period > 0)
    requires (constrained || regulating) && joinedAt >= 0 && lookahead >= 0
    ensures var timers := Named(name, queue, Views(queue));
      && Joined(Federate(constrained, regulating, lookahead, joinedAt, None, false, 0, timers, timers, []))
      && forall id :: id in timers ==> !timers[id].canceled
  {
    var timers := Named(name, queue, Views(queue));
    hide Named, Naming, DistinctTimers, Views, Restarted;
    forall id | id in timers
      ensures timers[id].due > joinedAt && (timers[id].cyclic ==> timers[id].period > 0) && !timers[id].canceled
    {
      JoinedTimer(name, queue, was, joinedAt, id);
    }
  }

  lemma JoinedTimer(name: map<UserTimer, Id>, queue: seq<UserTimer>, was: seq<Timer>, joinedAt: int, id: Id)
    requires DistinctTimers(queue) && Naming(name, queue) && |was| == |queue|
    requires forall i :: 0 <= i < |queue| ==>
      queue[i].View() == Restarted(was[i]).(due := was[i].offset + was[i].period + joinedAt)
    requires forall t :: t in was ==> t.offset + t.period > 0 && (t.cyclic ==> t.period > 0)
    requires id in Named(name, queue, Views(queue))
    ensures var t := Named(name, queue, Views(queue))[id];
      t.due > joinedAt && (t.cyclic ==> t.period > 0) && !t.canceled
  {
    NamedMembers(name, queue, Views(queue));
    hide Named, DistinctTimers;
    var i :| 0 <= i < |queue| && name[queue[i]] == id;
    assert was[i] in was;
  }
}

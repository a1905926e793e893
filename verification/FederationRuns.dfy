/** Which federation a federate chooses after a measurement stop, over all its runs. */
module FederationRuns {
  import opened Wrappers
  import opened Federations
  import opened Ambassador
  import opened AmbassadorJoins

  /** Every federation of the prefix that exists has the prefix as its name, or the prefix and an
      index in canonical decimal. */
  ghost predicate CanonicalNames(prefix: string, names: seq<string>) {
    forall s :: s in names && prefix <= s ==> Canonical(prefix, s)
  }

  ghost predicate CanonicalCallbacks(prefix: string, cbs: seq<Callback>) {
    forall cb :: cb in cbs && cb.Federations? ==> CanonicalNames(prefix, cb.names)
  }

  ghost predicate CanonicalAnswers(prefix: string, e: Answers) {
    && CanonicalCallbacks(prefix, e.listing) && CanonicalCallbacks(prefix, e.announcing)
      && CanonicalCallbacks(prefix, e.joining)
    && CanonicalCallbacks(prefix, e.waiting) && CanonicalCallbacks(prefix, e.synchronizing)
  }

  ghost predicate CanonicalStep(prefix: string, step: Step) {
    match step
    case Connecting(e) => CanonicalAnswers(prefix, e)
    case Evoking(cbs) => CanonicalCallbacks(prefix, cbs)
    case Disconnecting => true
  }

  /** The federation is named after the index, as a federation chosen or as one tried in place of a
      dead one, unless there was none yet; these names differ for the index -1 only. */
  ghost predicate Named(c: Config, a: Amb) {
    && CanonicalNames(c.prefix, a.list)
    && ((a.name == "" && a.index == -1) || a.name == Name(c.prefix, a.index) || a.name == DeadName(c.prefix, a.index))
  }

  lemma DeliverFields(c: Config, a: Amb, cb: Callback)
    ensures var b := Deliver(c, a, cb);
      b.name == a.name && b.index == a.index && b.list == if cb.Federations? then cb.names else a.list
  {
  }

  lemma DeliverKeepsName(c: Config, a: Amb, cbs: seq<Callback>)
    requires Named(c, a) && CanonicalCallbacks(c.prefix, cbs) && cbs != []
    ensures Named(c, Deliver(c, a, cbs[0]))
    ensures Deliver(c, a, cbs[0]).name == a.name && Deliver(c, a, cbs[0]).index == a.index
  {
    assert cbs[0] in cbs;
    DeliverFields(c, a, cbs[0]);
    hide CanonicalNames, Name, Deliver;
  }

  lemma {:induction false} DeliverAllKeepsName(c: Config, a: Amb, cbs: seq<Callback>)
    requires Named(c, a) && CanonicalCallbacks(c.prefix, cbs)
    ensures Named(c, DeliverAll(c, a, cbs))
    ensures DeliverAll(c, a, cbs).name == a.name && DeliverAll(c, a, cbs).index == a.index
    decreases |cbs|
  {
    if cbs != [] {
      var b := Deliver(c, a, cbs[0]);
      assert CanonicalCallbacks(c.prefix, cbs[1..]);
      hide Named, Deliver, CanonicalCallbacks;
      DeliverKeepsName(c, a, cbs);
      DeliverAllKeepsName(c, b, cbs[1..]);
    }
  }

  lemma {:induction false} EvokeKeepsName(c: Config, a: Amb, goal: Goal, cbs: seq<Callback>)
    requires Named(c, a) && CanonicalCallbacks(c.prefix, cbs)
    ensures Named(c, EvokeUntil(c, a, goal, cbs))
    ensures EvokeUntil(c, a, goal, cbs).name == a.name && EvokeUntil(c, a, goal, cbs).index == a.index
    decreases |cbs|
  {
    if cbs != [] && !Reached(a, goal) {
      var b := Deliver(c, a, cbs[0]);
      assert CanonicalCallbacks(c.prefix, cbs[1..]);
      hide Named, Deliver, CanonicalCallbacks, Reached;
      DeliverKeepsName(c, a, cbs);
      EvokeKeepsName(c, b, goal, cbs[1..]);
    }
  }

  lemma UpdateKeepsName(c: Config, a: Amb)
    requires Named(c, a)
    ensures Named(c, UpdateFederationNameAndIndex(c, a))
  {
    hide IndexOf, ToString;
    assert forall s :: s in Reversed(a.list) ==> s in a.list;
  }

  lemma ScanKeepsName(c: Config, a: Amb, e: Answers)
    requires Named(c, a) && CanonicalAnswers(c.prefix, e)
    ensures Named(c, Scan(c, a, e).a)
  {
    var b := a.(listed := false);
    assert Named(c, b);
    hide CanonicalCallbacks, EvokeUntil;
    EvokeKeepsName(c, b, Listed, e.listing);
    var d := EvokeUntil(c, b, Listed, e.listing);
    UpdateKeepsName(c, d);
    hide UpdateFederationNameAndIndex, CanonicalNames, Name;
  }

  lemma AnnouncedKeepsName(c: Config, a: Amb, e: Answers)
    requires Named(c, a) && CanonicalAnswers(c.prefix, e)
    ensures Named(c, Announced(c, a, e).a)
  {
    var x := a.(announcedInitialized := false, announcedSynchronized := false, announcedStopped := false);
    assert Named(c, x);
    hide CanonicalCallbacks, EvokeUntil, DeliverAll, CanonicalNames, ToString;
    EvokeKeepsName(c, x, AnyAnnounced, e.announcing);
    DeliverAllKeepsName(c, a, e.announcing);
  }

  lemma RestKeepsName(c: Config, a: Amb, e: Answers)
    requires Named(c, a) && CanonicalAnswers(c.prefix, e)
    ensures Named(c, AwaitStart(c, Init(c, a, e), e).a)
  {
    var x := a.(trace := a.trace + [ServicesJoined]);
    assert Named(c, x);
    hide CanonicalCallbacks, EvokeUntil, DeliverAll, CanonicalNames, Name;
    DeliverAllKeepsName(c, x, e.joining);
    var i := Init(c, a, e);
    assert Named(c, i);
    hide Init;
    EvokeKeepsName(c, i, InitTaken, e.waiting);
    var b := EvokeUntil(c, i, InitTaken, e.waiting);
    EvokeKeepsName(c, b, StartSynchronized, e.synchronizing);
  }

  lemma ReconnectKeepsName(c: Config, a: Amb, e: Answers)
    requires Named(c, a)
    ensures Named(c, Reconnect(LeaveLost(a), e)) && Named(c, CreateAndJoin(a, e)) && Named(c, Disconnect(a))
  {
    hide CanonicalNames, Name;
  }

  lemma ConnectKeepsName(c: Config, a: Amb, e: Answers)
    requires Named(c, a) && CanonicalAnswers(c.prefix, e)
    ensures Named(c, Connect(c, a, e).a)
  {
    hide Named, CanonicalAnswers, LeaveLost, Reconnect, Scan, CreateAndJoin, Announced, Init, AwaitStart;
    ReconnectKeepsName(c, a, e);
    var scanned := Scan(c, Reconnect(LeaveLost(a), e), e);
    ScanKeepsName(c, Reconnect(LeaveLost(a), e), e);
    ReconnectKeepsName(c, scanned.a, e);
    var announced := Announced(c, CreateAndJoin(scanned.a, e), e);
    AnnouncedKeepsName(c, CreateAndJoin(scanned.a, e), e);
    RestKeepsName(c, announced.a, e);
  }

  lemma {:induction false} NameReached(c: Config, r: Run, steps: seq<Step>)
    requires Reachable(c, r, steps) && forall step :: step in steps ==> CanonicalStep(c.prefix, step)
    ensures Named(c, r.a)
    decreases |steps|
  {
    if steps != [] {
      var n := |steps| - 1;
      var q :| Reachable(c, q, steps[..n]) && !q.waiting && r == Next(c, q, steps[n]);
      assert steps[n] in steps;
      NameReached(c, q, steps[..n]);
      hide Reachable, Named, Connect, DeliverAll, Disconnect, CanonicalAnswers, CanonicalCallbacks;
      match steps[n]
      case Connecting(e) => ConnectKeepsName(c, q.a, e);
      case Evoking(cbs) => DeliverAllKeepsName(c, q.a, cbs);
      case Disconnecting => ReconnectKeepsName(c, q.a, Answers(false, false, [], Error, false, [], [], [], false, []));
    }
  }

  /** After a measurement stop the federation chosen is never the one just left; if the latest
      federation listed is another one, it is the one chosen. */
  lemma ChosenAfterStop(c: Config, r: Run, steps: seq<Step>, e: Answers)
    requires Reachable(c, r, steps) && (forall step :: step in steps ==> CanonicalStep(c.prefix, step))
      && CanonicalAnswers(c.prefix, e)
    requires r.a.state.ReceivedMeasurementStop? && r.a.name != ""
    requires Scan(c, Reconnect(LeaveLost(r.a), e), e).Go?
    ensures var s := Scan(c, Reconnect(LeaveLost(r.a), e), e).a;
      var latest := Latest(c.prefix, Reversed(s.list));
      && s.name != r.a.name
      && (latest.Some? && latest.value != r.a.name ==> s.name == latest.value)
  {
    hide Reachable;
    NameReached(c, r, steps);
    var a := Reconnect(LeaveLost(r.a), e);
    assert a.state.ScanForFederationPrefix? && a.name == r.a.name && a.index == r.a.index && Named(c, a);
    var b := a.(listed := false);
    assert Named(c, b);
    var d := EvokeUntil(c, b, Listed, e.listing);
    hide CanonicalCallbacks, EvokeUntil, Reconnect, LeaveLost;
    EvokeKeepsName(c, b, Listed, e.listing);
    ChosenFrom(c, d);
    assert Reversed(Reversed(d.list)) == d.list;
  }

  /** A federate told to stop in any of its runs, and configured to rejoin, joins another federation: the
      next Connect that gets a list never chooses the federation left, and chooses the last one listed
      with the prefix if that is another. */
  lemma RejoinsElsewhere(c: Config, r: Run, steps: seq<Step>, before: seq<Callback>, after: seq<Callback>, e: Answers)
    requires Reachable(c, r, steps) && !r.waiting && (forall step :: step in steps ==> CanonicalStep(c.prefix, step))
    requires CanonicalCallbacks(c.prefix, before + ([MeasurementStop] + after)) && CanonicalAnswers(c.prefix, e)
    requires c.rejoinOnMeasurementStop && r.a.name != "" && forall cb :: cb in after ==> !Overrides(c, cb)
    ensures var q := Next(c, r, Evoking(before + ([MeasurementStop] + after)));
      var scanned := Scan(c, Reconnect(LeaveLost(q.a), e), e);
      scanned.Go? ==>
        && scanned.a.name != r.a.name
        && (var latest := Latest(c.prefix, Reversed(scanned.a.list));
            latest.Some? && latest.value != r.a.name ==> scanned.a.name == latest.value)
  {
    var step := Evoking(before + ([MeasurementStop] + after));
    StopIsNoted(c, r.a, before, after);
    Delivered(c, r.a, before + ([MeasurementStop] + after));
    ReachedMore(c, r, steps, step);
    var q := Next(c, r, step);
    assert forall x :: x in steps + [step] ==> x in steps || x == step;
    hide Reachable, DeliverAll, Scan, Reconnect, LeaveLost, CanonicalCallbacks, CanonicalAnswers, Latest, Reversed;
    if Scan(c, Reconnect(LeaveLost(q.a), e), e).Go? {
      ChosenAfterStop(c, q, steps + [step], e);
    }
  }

  lemma ChosenFrom(c: Config, a: Amb)
    requires Named(c, a) && a.name != ""
    ensures var s := UpdateFederationNameAndIndex(c, a);
      var latest := Latest(c.prefix, a.list);
      && s.name != a.name && (latest.Some? && latest.value != a.name ==> s.name == latest.value)
  {
    var latest := Latest(c.prefix, a.list);
    hide NextIndex, Latest, Name, DeadName, Canonical;
    if a.name == Name(c.prefix, a.index) {
      CanonicalChoice(c.prefix, a.index, latest);
    } else {
      DeadChoice(c.prefix, a.index, latest);
    }
  }

  // ----- Dead federations -----

  /** What the RTI answers to a Connect when these federations exist, all of them dead: the federation
      exists and is joined, but no point is announced; one that is free is created. */
  function DeadAnswers(a: Amb, existing: set<string>): Answers {
    Answers(true, true, [], if a.name in existing then FederationAlreadyExists else CreatedFederation, true,
      if a.name in existing then [] else [Announce(INITIALIZED)], [], [], false, [])
  }

  /** The ambassador after n attempts to connect. */
  function Attempted(c: Config, a: Amb, existing: set<string>, n: nat): Amb {
    if n == 0 then a else var b := Attempted(c, a, existing, n - 1); Connect(c, b, DeadAnswers(b, existing)).a
  }

  /** No sync point was announced in this connection. */
  predicate Unannounced(a: Amb) {
    !a.announcedInitialized && !a.announcedSynchronized && !a.announcedStopped
  }

  /** An attempt at a dead federation leaves the federate at the next name. */
  lemma DeadAttempt(c: Config, a: Amb, existing: set<string>)
    requires a.state.CreateFederation? && Unannounced(a) && a.name in existing
    ensures var p := Connect(c, a, DeadAnswers(a, existing));
      p.Go? && p.a.state.CreateFederation? && Unannounced(p.a)
      && p.a.index == Bumped(a.index) && p.a.name == DeadName(c.prefix, p.a.index)
  {
    hide DeadName, EvokeUntil;
  }

  /** While the names tried exist, the index goes up with each attempt. */
  lemma {:induction false} DeadAttempts(c: Config, a: Amb, existing: set<string>, n: nat)
    requires a.state.CreateFederation? && Unannounced(a)
    requires forall j :: 0 <= j < n ==> Attempted(c, a, existing, j).name in existing
    ensures var b := Attempted(c, a, existing, n);
      && b.state.CreateFederation? && Unannounced(b) && b.index == AfterDead(a.index, n)
      && (n > 0 ==> b.name == DeadName(c.prefix, b.index))
  {
    if n > 0 {
      DeadAttempts(c, a, existing, n - 1);
      hide Attempted, DeadName, Connect, DeadAnswers;
      assert Attempted(c, a, existing, n - 1).name in existing;
      DeadAttempt(c, Attempted(c, a, existing, n - 1), existing);
    }
  }

  /** The first attempt, from the m-th to the k-th, at a name that is free. */
  lemma FirstFree(c: Config, a: Amb, existing: set<string>, m: nat, k: nat) returns (n: nat)
    requires a.state.CreateFederation? && Unannounced(a) && m <= k && k > 0
    requires forall j :: 0 <= j < m ==> Attempted(c, a, existing, j).name in existing
    requires DeadName(c.prefix, AfterDead(a.index, k)) !in existing
    ensures n <= k && Attempted(c, a, existing, n).name !in existing
    ensures forall j :: 0 <= j < n ==> Attempted(c, a, existing, j).name in existing
    decreases k - m
  {
    hide Attempted, DeadName, AfterDead;
    DeadAttempts(c, a, existing, m);
    if Attempted(c, a, existing, m).name !in existing {
      n := m;
    } else {
      assert m != k;
      n := FirstFree(c, a, existing, m + 1, k);
    }
  }

  ghost predicate AllConnecting(steps: seq<Step>) {
    forall step :: step in steps ==> step.Connecting?
  }

  lemma NoAttempt(c: Config, a: Amb, existing: set<string>, steps: seq<Step>)
    ensures Attempted(c, a, existing, 0) == a && steps + [] == steps && AllConnecting([])
  {
  }

  lemma OneMoreConnecting(steps: seq<Step>, front: seq<Step>, step: Step)
    requires AllConnecting(front) && step.Connecting?
    ensures AllConnecting(front + [step]) && steps + (front + [step]) == steps + front + [step]
  {
  }

  lemma NextAttempt(c: Config, a: Amb, existing: set<string>, n: nat)
    requires a.state.CreateFederation? && Unannounced(a)
    requires forall j :: 0 <= j <= n ==> Attempted(c, a, existing, j).name in existing
    ensures var b := Attempted(c, a, existing, n);
      Next(c, Run(b, false), Connecting(DeadAnswers(b, existing))) == Run(Attempted(c, a, existing, n + 1), false)
  {
    DeadAttempts(c, a, existing, n);
    hide Connect, DeadAnswers, DeadName;
    DeadAttempt(c, Attempted(c, a, existing, n), existing);
  }

  lemma {:induction false} AttemptsReachable(c: Config, r: Run, steps: seq<Step>, existing: set<string>, n: nat)
    returns (more: seq<Step>)
    requires Reachable(c, r, steps) && !r.waiting && r.a.state.CreateFederation? && Unannounced(r.a)
    requires forall j :: 0 <= j < n ==> Attempted(c, r.a, existing, j).name in existing
    ensures |more| == n && AllConnecting(more)
    ensures Reachable(c, Run(Attempted(c, r.a, existing, n), false), steps + more)
  {
    hide *;
    if n == 0 {
      more := [];
      NoAttempt(c, r.a, existing, steps);
    } else {
      var front := AttemptsReachable(c, r, steps, existing, n - 1);
      NextAttempt(c, r.a, existing, n - 1);
      var b := Attempted(c, r.a, existing, n - 1);
      var step := Connecting(DeadAnswers(b, existing));
      ReachedMore(c, Run(b, false), steps + front, step);
      OneMoreConnecting(steps, front, step);
      more := front + [step];
    }
  }

  lemma ReachedMore(c: Config, r: Run, steps: seq<Step>, step: Step)
    requires Reachable(c, r, steps) && !r.waiting
    ensures Reachable(c, Next(c, r, step), steps + [step])
  {
    hide Next;
    assert (steps + [step])[..|steps|] == steps;
  }

  /** Connecting ends: of finitely many federations, all dead, each attempt tries one with a greater
      index, and after at most as many attempts and one more a free name is reached, in a run; the
      attempt after that creates it and goes on. */
  lemma FreeNameReached(c: Config, r: Run, steps: seq<Step>, existing: set<string>) returns (n: nat, more: seq<Step>)
    requires Reachable(c, r, steps) && !r.waiting && r.a.state.CreateFederation? && Unannounced(r.a)
    ensures n <= |existing| + 1 && Attempted(c, r.a, existing, n).name !in existing
    ensures forall j :: 0 <= j < n ==> Attempted(c, r.a, existing, j).name in existing
    ensures forall i, j :: 0 <= i < j <= n ==>
      Attempted(c, r.a, existing, i).index < Attempted(c, r.a, existing, j).index
    ensures |more| == n && AllConnecting(more)
    ensures Reachable(c, Run(Attempted(c, r.a, existing, n), false), steps + more)
    ensures var p := Connect(c, Attempted(c, r.a, existing, n), DeadAnswers(Attempted(c, r.a, existing, n), existing));
      p.a.state == if c.waitForMeasurementInit then WaitForMeasurementInit else Online
  {
    hide Attempted, Reachable, DeadName, Connect, DeadAnswers, AfterDead;
    var k := DeadFederationsRunOut(c.prefix, r.a.index, existing);
    n := FirstFree(c, r.a, existing, 0, k);
    more := AttemptsReachable(c, r, steps, existing, n);
    forall i, j | 0 <= i < j <= n
      ensures Attempted(c, r.a, existing, i).index < Attempted(c, r.a, existing, j).index
    {
      DeadAttempts(c, r.a, existing, i);
      DeadAttempts(c, r.a, existing, j);
      AfterDeadIncreases(r.a.index, i, j);
    }
    DeadAttempts(c, r.a, existing, n);
    FreeAttempt(c, Attempted(c, r.a, existing, n), existing);
  }

  lemma FreeAttempt(c: Config, a: Amb, existing: set<string>)
    requires a.state.CreateFederation? && a.name !in existing
    ensures Connect(c, a, DeadAnswers(a, existing)).a.state ==
      if c.waitForMeasurementInit then WaitForMeasurementInit else Online
  {
    var e := DeadAnswers(a, existing);
    var j := CreateAndJoin(a, e);
    var x := j.(announcedInitialized := false, announcedSynchronized := false, announcedStopped := false);
    assert EvokeUntil(c, x, AnyAnnounced, e.announcing) == Deliver(c, x, Announce(INITIALIZED));
  }
}

/** All interleavings of a caller of getDelay, the watchdog thread and the destructor: how the locks
    are taken, what getDelay returns, and that no call is stuck. */
module AbsTimeoutRuns {
  import opened AbsTimeout

  // ----- Locks -----

  /** Where each thread is says which mutexes it holds. Each takes _doneMutex first: the watchdog
      holds _delayMutex only together with _doneMutex, and the caller gives _doneMutex back only
      after taking _delayMutex. */
  predicate Locks(s: State) {
    && (s.doneMutex.Caller? <==> s.caller in {Clearing, Triggering, LockingDelay, Releasing})
    && (s.doneMutex.Dog? <==> s.dog in {Top, Timing, Looking, WantingDelay, Updating, Providing, Unlocking})
    && (s.doneMutex.Destructor? <==> s.destructor.Marking?)
    && (s.delayMutex.Caller? <==> s.caller in {Releasing, Checking, Reading, Resetting})
    && (s.delayMutex.Dog? <==> s.dog in {Updating, Providing, Unlocking})
    && !s.delayMutex.Destructor?
    && (!s.destructor.NotDestroyed? ==> s.caller.Idle?)
    && (s.done <==> s.destructor.Joining?)
    && (s.dog.Ended? ==> s.done) && (s.done ==> !s.dog.Waiting?)
  }

  lemma LocksStep(s: State, step: Step)
    requires Locks(s) && Enabled(s, step)
    ensures Locks(Next(s, step))
  {
  }

  // ----- Freshness -----

  /** Past the clearing of the flag, a flag that is set again says that the delay was updated during
      this call, from a clock reading not before its beginning. */
  predicate Fresh(s: State) {
    && s.began <= s.clock && s.during <= s.calls
    && (s.during == s.calls && s.calls > 0 ==> s.updated >= s.began)
    && (s.caller in {Triggering, LockingDelay, Releasing, Checking, Sleeping, Relocking} && s.provided ==>
      s.during == s.calls)
    && (s.caller in {Reading, Resetting} ==> s.provided && s.during == s.calls)
    && (s.dog.Providing?
      && s.caller in {Triggering, LockingDelay, Releasing, Checking, Sleeping, Relocking, Reading, Resetting}
      ==> s.during == s.calls)
    && (s.caller.Resetting? ==> s.result == s.delay)
    && (!s.caller.Idle? ==> s.calls > 0)
  }

  lemma FreshStep(s: State, step: Step)
    requires Locks(s) && Fresh(s) && Enabled(s, step)
    ensures Fresh(Next(s, step))
  {
    if step.DogStep? {
      FreshDog(s);
    } else if step.CallerStep? {
      FreshCaller(s);
    }
  }

  lemma FreshDog(s: State)
    requires Locks(s) && Fresh(s) && DogCan(s)
    ensures Fresh(DogNext(s))
  {
  }

  lemma FreshCaller(s: State)
    requires Locks(s) && Fresh(s) && CallerCan(s)
    ensures Fresh(CallerNext(s))
  {
  }

  lemma {:induction false} Reached(s: State, steps: seq<Step>, now: int)
    requires Reachable(s, steps, now)
    ensures Locks(s) && Fresh(s) && NoMissedWakeup(s)
    decreases |steps|
  {
    if steps != [] {
      var n := |steps| - 1;
      var t :| Reachable(t, steps[..n], now) && Enabled(t, steps[n]) && s == Next(t, steps[n]);
      Reached(t, steps[..n], now);
      hide Reachable, Enabled, Next, Locks, Fresh, NoMissedWakeup;
      LocksStep(t, steps[n]);
      FreshStep(t, steps[n]);
      NoMissedWakeupStep(t, steps[n]);
    }
  }

  /** Whenever a call returns, the delay it read was updated during this call, from a clock reading
      taken not before the call began. */
  lemma ReturnsFreshDelay(s: State, steps: seq<Step>, now: int)
    requires Reachable(s, steps, now) && s.caller.Resetting?
    ensures s.during == s.calls && s.updated >= s.began && s.result == s.delay
    ensures CallerCan(s) && Next(s, CallerStep).caller.Idle? && Next(s, CallerStep).result == s.delay
  {
    Reached(s, steps, now);
  }

  // ----- The delay -----

  /** A round of the watchdog as seen from outside: when it took its start time, the reading at its
      end, and how many calls had begun by then. */
  datatype Round = Round(start: int, reading: int, call: nat)

  /** What was seen of a run: when the last round was started, and the rounds that ended. */
  datatype Seen = Seen(since: int, rounds: seq<Round>)

  /** What is seen of a step: the watchdog reads the clock where it takes the start time and where it
      updates the delay. */
  function Observe(h: Seen, s: State, step: Step): Seen {
    if step.DogStep? && s.dog.Timing? then h.(since := s.clock)
    else if step.DogStep? && s.dog.Updating? then h.(rounds := h.rounds + [Round(h.since, s.clock, s.calls)])
    else h
  }

  ghost predicate Watched(s: State, h: Seen, steps: seq<Step>, now: int)
    decreases |steps|
  {
    if steps == [] then s == Init(now) && h == Seen(now, []) else
      var n := |steps| - 1;
      exists t, g :: Watched(t, g, steps[..n], now) && Enabled(t, steps[n]) && s == Next(t, steps[n])
        && h == Observe(g, t, steps[n])
  }

  /** How much longer the rounds took than their period: the time for which the program stood still. */
  function Excess(rounds: seq<Round>): int {
    if rounds == [] then 0 else
      var last := rounds[|rounds| - 1];
      var took := last.reading - last.start;
      Excess(rounds[..|rounds| - 1]) + if took > PERIOD then took - PERIOD else 0
  }

  /** Rounds do not overlap, and each reads the clock after it took its start time. */
  predicate InTurn(rounds: seq<Round>, now: int) {
    && (forall i :: 0 <= i < |rounds| ==> rounds[i].start <= rounds[i].reading <= now)
    && (forall i, j :: 0 <= i < j < |rounds| ==> rounds[i].reading <= rounds[j].start)
  }

  predicate UnderWay(dog: DogPc) {
    dog.Looking? || dog.Waiting? || dog.Woken? || dog.TimedOut? || dog.WantingDelay? || dog.Updating?
  }

  /** The round under way started at the time noted, after all that ended. */
  predicate Timed(s: State, h: Seen) {
    && InTurn(h.rounds, s.clock)
    && (UnderWay(s.dog) ==>
      s.start == h.since && h.since <= s.clock
      && forall i :: 0 <= i < |h.rounds| ==> h.rounds[i].reading <= h.since)
    && s.delay == Excess(h.rounds)
    && (if h.rounds == [] then s.during == 0
        else s.during == h.rounds[|h.rounds| - 1].call && s.updated == h.rounds[|h.rounds| - 1].reading)
  }

  lemma ExcessMore(rounds: seq<Round>, r: Round)
    ensures Excess(rounds + [r]) ==
      Excess(rounds) + if r.reading - r.start > PERIOD then r.reading - r.start - PERIOD else 0
  {
    assert (rounds + [r])[..|rounds|] == rounds;
  }

  lemma InTurnMore(rounds: seq<Round>, r: Round, now: int)
    requires InTurn(rounds, now) && r.start <= r.reading <= now
    requires forall i :: 0 <= i < |rounds| ==> rounds[i].reading <= r.start
    ensures InTurn(rounds + [r], now)
  {
  }

  lemma InTurnLater(rounds: seq<Round>, now: int, later: int)
    requires InTurn(rounds, now) && now <= later
    ensures InTurn(rounds, later)
    ensures forall i :: 0 <= i < |rounds| ==> rounds[i].reading <= now
  {
  }

  /** The watchdog's step at the end of a round. */
  lemma Updates(s: State)
    requires s.dog.Updating?
    ensures DogCan(s) && var n, over := Next(s, DogStep), s.clock - s.start - PERIOD;
      n.delay == s.delay + (if over > 0 then over else 0) && n.clock == s.clock && n.start == s.start
      && n.dog.Providing? && n.updated == s.clock && n.during == s.calls
  {
  }

  lemma RoundEnds(s: State, h: Seen)
    requires Timed(s, h) && s.dog.Updating?
    ensures Timed(Next(s, DogStep), Observe(h, s, DogStep))
  {
    Updates(s);
    hide Excess, InTurn, Next, DogCan;
    var r := Round(h.since, s.clock, s.calls);
    ExcessMore(h.rounds, r);
    InTurnMore(h.rounds, r, s.clock);
  }

  lemma DogKeepsRounds(s: State)
    requires DogCan(s) && !s.dog.Updating?
    ensures var n := Next(s, DogStep);
      && n.delay == s.delay && n.during == s.during && n.updated == s.updated && n.clock == s.clock
      && if s.dog.Timing? then n.dog.Looking? && n.start == s.clock
         else n.start == s.start && (UnderWay(n.dog) ==> UnderWay(s.dog))
  {
  }

  lemma RoundGoesOn(s: State, h: Seen)
    requires Timed(s, h) && DogCan(s) && !s.dog.Updating?
    ensures Timed(Next(s, DogStep), Observe(h, s, DogStep))
  {
    DogKeepsRounds(s);
    InTurnLater(h.rounds, s.clock, s.clock);
    hide Excess, InTurn, Next, DogCan;
  }

  lemma OthersKeepRounds(s: State, step: Step)
    requires Enabled(s, step) && !step.DogStep?
    ensures var n := Next(s, step);
      && n.start == s.start && n.delay == s.delay && n.during == s.during && n.updated == s.updated
      && n.clock >= s.clock && (n.dog == s.dog || (s.dog.Waiting? && n.dog in {Woken, TimedOut}))
  {
  }

  lemma TimedStep(s: State, h: Seen, step: Step)
    requires Timed(s, h) && Enabled(s, step)
    ensures Timed(Next(s, step), Observe(h, s, step))
  {
    if step.DogStep? {
      hide Timed, Next, Observe;
      if s.dog.Updating? { RoundEnds(s, h); } else { RoundGoesOn(s, h); }
    } else {
      OthersKeepRounds(s, step);
      InTurnLater(h.rounds, s.clock, Next(s, step).clock);
      hide Excess, InTurn, Next, Enabled;
    }
  }

  lemma {:induction false} WatchedReached(s: State, h: Seen, steps: seq<Step>, now: int)
    requires Watched(s, h, steps, now)
    ensures Reachable(s, steps, now) && Timed(s, h)
    decreases |steps|
  {
    if steps == [] {
      assert Reachable(s, steps, now);
    } else {
      var n := |steps| - 1;
      var t, g :| Watched(t, g, steps[..n], now) && Enabled(t, steps[n]) && s == Next(t, steps[n])
        && h == Observe(g, t, steps[n]);
      hide Watched, Enabled, Next, Observe, Locks, Timed, Fresh, NoMissedWakeup;
      WatchedReached(t, g, steps[..n], now);
      Reached(t, steps[..n], now);
      TimedStep(t, g, steps[n]);
      Extended(t, steps[..n], now, steps[n]);
      assert steps[..n] + [steps[n]] == steps;
    }
  }

  /** Every run can be watched. */
  lemma {:induction false} CanWatch(s: State, steps: seq<Step>, now: int) returns (h: Seen)
    requires Reachable(s, steps, now)
    ensures Watched(s, h, steps, now)
    decreases |steps|
  {
    if steps == [] {
      h := Seen(now, []);
    } else {
      var n := |steps| - 1;
      var t :| Reachable(t, steps[..n], now) && Enabled(t, steps[n]) && s == Next(t, steps[n]);
      var g := CanWatch(t, steps[..n], now);
      h := Observe(g, t, steps[n]);
    }
  }

  /** In every interleaving the delay is the time by which the watchdog's rounds exceeded their period,
      and a call returns that sum over rounds of which the last read the clock during this call. */
  lemma ReturnsExcess(s: State, h: Seen, steps: seq<Step>, now: int)
    requires Watched(s, h, steps, now)
    ensures s.delay == Excess(h.rounds) && InTurn(h.rounds, s.clock)
    ensures s.caller.Resetting? ==>
      s.result == Excess(h.rounds) && h.rounds != []
      && h.rounds[|h.rounds| - 1].call == s.calls && h.rounds[|h.rounds| - 1].reading >= s.began
  {
    hide Watched, Reachable, Excess, InTurn;
    WatchedReached(s, h, steps, now);
    Reached(s, steps, now);
  }

  // ----- Progress -----

  /** A caller that sleeps has a flag that is not provided yet, so that the watchdog will provide it. */
  predicate NoMissedWakeup(s: State) {
    s.caller.Sleeping? ==> !s.provided && !s.dog.Unlocking?
  }

  lemma NoMissedWakeupStep(s: State, step: Step)
    requires Locks(s) && Fresh(s) && NoMissedWakeup(s) && Enabled(s, step)
    ensures NoMissedWakeup(Next(s, step))
  {
  }

  ghost predicate Invariant(s: State) {
    Locks(s) && Fresh(s) && NoMissedWakeup(s)
  }

  /** How far the watchdog is from giving _doneMutex back to a caller that wants it. */
  function ToRelease(s: State): nat {
    match s.dog
    case Top => if s.provided then 3 else 10
    case Timing => if s.provided then 2 else 9
    case Looking => if s.provided then 1 else 8
    case WantingDelay => 7
    case Updating => 6
    case Providing => 5
    case Unlocking => if s.provided then 4 else 11
    case _ => 0
  }

  /** How far it is from providing the delay, or from giving _delayMutex back. */
  function ToProvide(dog: DogPc): nat {
    match dog
    case Starting => 7
    case Unlocking => 7
    case Top => 6
    case Timing => 5
    case Waiting => 5
    case Woken => 5
    case Looking => 4
    case TimedOut => 4
    case WantingDelay => 3
    case Updating => 2
    case Providing => 1
    case Ended => 0
  }

  function ToGiveBack(dog: DogPc): nat {
    match dog case Updating => 3 case Providing => 2 case Unlocking => 1 case _ => 0
  }

  /** How far a call is from returning. */
  function Distance(s: State): nat {
    match s.caller
    case LockingDone => 1000 + ToRelease(s)
    case Clearing => 900
    case Triggering => 800
    case LockingDelay => 700
    case Releasing => 600
    case Relocking => if s.provided then 100 + ToGiveBack(s.dog) else 550 + ToProvide(s.dog)
    case Checking => if s.provided then 50 else 500
    case Sleeping => 400 + ToProvide(s.dog)
    case Reading => 2
    case Resetting => 1
    case Idle => 0
  }

  /** The step that brings a call closer to its return: the caller's own if it can take one, else
      the watchdog's, whose wait ends after its period at the latest. */
  function Helping(s: State): Step {
    if CallerCan(s) then CallerStep else if s.dog.Waiting? then Timeout else DogStep
  }

  /** A call in progress is never stuck: some thread can take a step that brings it closer to its
      return. */
  lemma CallComesCloser(s: State)
    requires Invariant(s) && !s.caller.Idle?
    ensures Enabled(s, Helping(s)) && Distance(Next(s, Helping(s))) < Distance(s)
  {
  }

  lemma InvariantStep(s: State, step: Step)
    requires Invariant(s) && Enabled(s, step)
    ensures Invariant(Next(s, step))
  {
    hide Locks, Fresh, NoMissedWakeup, Next, Enabled;
    LocksStep(s, step);
    FreshStep(s, step);
    NoMissedWakeupStep(s, step);
  }

  lemma Extended(s: State, steps: seq<Step>, now: int, step: Step)
    requires Reachable(s, steps, now) && Enabled(s, step)
    ensures Reachable(Next(s, step), steps + [step], now)
  {
    hide Enabled, Next;
    assert (steps + [step])[..|steps|] == steps;
  }

  /** From every reachable state, a call in progress returns after finitely many steps of the two
      threads alone: no reachable state blocks both forever. */
  lemma {:induction false} CallReturns(s: State, steps: seq<Step>, now: int) returns (end: State, more: seq<Step>)
    requires Reachable(s, steps, now)
    ensures Reachable(end, steps + more, now) && end.caller.Idle?
    ensures forall step :: step in more ==> step in {CallerStep, DogStep, Timeout}
    decreases Distance(s)
  {
    hide Reachable, Next, Enabled, Invariant, Distance, Helping, Locks, Fresh, NoMissedWakeup;
    if s.caller.Idle? {
      end, more := s, [];
      assert steps + [] == steps;
    } else {
      ReachedInvariant(s, steps, now);
      CallComesCloser(s);
      HelpingSteps(s);
      Extended(s, steps, now, Helping(s));
      end, more := CallReturns(Next(s, Helping(s)), steps + [Helping(s)], now);
      assert steps + [Helping(s)] + more == steps + ([Helping(s)] + more);
      more := [Helping(s)] + more;
    }
  }

  lemma HelpingSteps(s: State)
    ensures Helping(s) in {CallerStep, DogStep, Timeout}
  {
  }

  lemma ReachedInvariant(s: State, steps: seq<Step>, now: int)
    requires Reachable(s, steps, now)
    ensures Invariant(s)
  {
    hide Reachable;
    Reached(s, steps, now);
  }

  /** How far the watchdog is from its end once the destructor waits for it. */
  function ToEnd(dog: DogPc): nat {
    match dog
    case Ended => 0
    case Top => 1
    case Unlocking => 2
    case Starting => 2
    case Providing => 3
    case Updating => 4
    case WantingDelay => 5
    case Looking => 6
    case TimedOut => 6
    case Timing => 7
    case Woken => 7
    case Waiting => 8
  }

  /** Once the destructor waits for the watchdog, every step the watchdog takes brings it closer to
      its end, and it can always take one. */
  lemma JoinEnds(s: State, steps: seq<Step>, now: int)
    requires Reachable(s, steps, now) && s.destructor.Joining? && !s.dog.Ended?
    ensures Enabled(s, DogStep) && ToEnd(Next(s, DogStep).dog) < ToEnd(s.dog)
  {
    hide Reachable;
    Reached(s, steps, now);
  }
}

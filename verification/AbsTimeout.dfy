/** The handshake between a caller of getDelay and the watchdog thread of AbsTimeout: two mutexes,
    two condition variables, and the flag that says the delay was provided. One caller at a time;
    the destructor runs when no call is in progress. */
module AbsTimeout {
  /** _watchDogPeriod. */
  const PERIOD := 100

  /** Who holds a mutex. */
  datatype Owner = Nobody | Caller | Dog | Destructor

  /** Where a caller of getDelay is. */
  datatype CallerPc =
    | Idle          // no call in progress
    | LockingDone   // wants _doneMutex
    | Clearing      // clears _delayProvided
    | Triggering    // notifies _cvDone
    | LockingDelay  // wants _delayMutex
    | Releasing     // unlocks _doneMutex
    | Checking      // looks at _delayProvided
    | Sleeping      // waits on _cvDelay
    | Relocking     // was woken, wants _delayMutex
    | Reading       // reads _delay
    | Resetting     // clears _delayProvided and returns

  /** Where the watchdog thread is. */
  datatype DogPc =
    | Starting      // wants _doneMutex
    | Top           // looks at _done
    | Timing        // takes the start time
    | Looking       // looks whether to wait
    | Waiting       // waits on _cvDone
    | Woken         // was notified, wants _doneMutex
    | TimedOut      // its period is over, wants _doneMutex
    | WantingDelay  // wants _delayMutex
    | Updating      // reads the clock and updates _delay
    | Providing     // sets _delayProvided and notifies _cvDelay
    | Unlocking     // gives _delayMutex back
    | Ended

  datatype DestructorPc = NotDestroyed | Locking | Marking | Joining

  /** calls counts the calls begun, began is the time the last one began; updated and during are the
      time and the call of the last update of the delay; result is what the last call returned. */
  datatype State = State(
    caller: CallerPc, dog: DogPc, destructor: DestructorPc,
    doneMutex: Owner, delayMutex: Owner, provided: bool, done: bool,
    clock: int, start: int, delay: int,
    calls: nat, began: int, updated: int, during: nat, result: int)

  datatype Step = Call | CallerStep | SpuriousCaller | DogStep | SpuriousDog | Timeout
    | Destroy | DestructorStep | Tick(to: int)

  function Init(now: int): State {
    State(Idle, Starting, NotDestroyed, Nobody, Nobody, false, false, now, now, 0, 0, now, now, 0, 0)
  }

  /** Whether the caller can take its next step. */
  predicate CallerCan(s: State) {
    match s.caller
    case Idle => false
    case LockingDone => s.doneMutex.Nobody?
    case LockingDelay => s.delayMutex.Nobody?
    case Sleeping => false
    case Relocking => s.delayMutex.Nobody?
    case _ => true
  }

  function CallerNext(s: State): State
    requires CallerCan(s)
  {
    match s.caller
    case LockingDone => s.(caller := Clearing, doneMutex := Caller)
    case Clearing => s.(caller := Triggering, provided := false)
    case Triggering => s.(caller := LockingDelay, dog := if s.dog.Waiting? then Woken else s.dog)
    case LockingDelay => s.(caller := Releasing, delayMutex := Caller)
    case Releasing => s.(caller := Checking, doneMutex := Nobody)
    case Checking => if s.provided then s.(caller := Reading) else s.(caller := Sleeping, delayMutex := Nobody)
    case Relocking => s.(caller := Checking, delayMutex := Caller)
    case Reading => s.(caller := Resetting, result := s.delay)
    case _ => s.(caller := Idle, provided := false, delayMutex := Nobody)
  }

  predicate DogCan(s: State) {
    match s.dog
    case Starting => s.doneMutex.Nobody?
    case Waiting => false
    case Woken => s.doneMutex.Nobody?
    case TimedOut => s.doneMutex.Nobody?
    case WantingDelay => s.delayMutex.Nobody?
    case Ended => false
    case _ => true
  }

  /** A wait ends when the predicate holds, or after the period whatever it says. */
  function DogNext(s: State): State
    requires DogCan(s)
  {
    match s.dog
    case Starting => s.(dog := Top, doneMutex := Dog)
    case Top => if s.done then s.(dog := Ended, doneMutex := Nobody) else s.(dog := Timing)
    case Timing => s.(dog := Looking, start := s.clock)
    case Looking => if s.done || !s.provided then s.(dog := WantingDelay) else s.(dog := Waiting, doneMutex := Nobody)
    case Woken => s.(dog := Looking, doneMutex := Dog)
    case TimedOut => s.(dog := WantingDelay, doneMutex := Dog)
    case WantingDelay => s.(dog := Updating, delayMutex := Dog)
    case Updating =>
      s.(dog := Providing, delay := if s.clock - s.start > PERIOD then s.delay + (s.clock - s.start - PERIOD)
        else s.delay,
         updated := s.clock, during := s.calls)
    case Providing => s.(dog := Unlocking, provided := true, caller := if s.caller.Sleeping? then Relocking
      else s.caller)
    case _ => s.(dog := Top, delayMutex := Nobody)
  }

  predicate Enabled(s: State, step: Step) {
    match step
    case Call => s.caller.Idle? && s.destructor.NotDestroyed?
    case CallerStep => CallerCan(s)
    case SpuriousCaller => s.caller.Sleeping?
    case DogStep => DogCan(s)
    case SpuriousDog => s.dog.Waiting?
    case Timeout => s.dog.Waiting?
    case Destroy => s.caller.Idle? && s.destructor.NotDestroyed?
    case DestructorStep => (s.destructor.Locking? && s.doneMutex.Nobody?) || s.destructor.Marking?
    case Tick(to) => to >= s.clock
  }

  function Next(s: State, step: Step): State
    requires Enabled(s, step)
  {
    match step
    case Call => s.(caller := LockingDone, calls := s.calls + 1, began := s.clock)
    case CallerStep => CallerNext(s)
    case SpuriousCaller => s.(caller := Relocking)
    case DogStep => DogNext(s)
    case SpuriousDog => s.(dog := Woken)
    case Timeout => s.(dog := TimedOut)
    case Destroy => s.(destructor := Locking)
    case DestructorStep =>
      if s.destructor.Locking? then s.(destructor := Marking, doneMutex := Destructor)
      else s.(destructor := Joining, done := true, doneMutex := Nobody, dog := if s.dog.Waiting? then Woken else s.dog)
    case Tick(to) => s.(clock := to)
  }

  ghost predicate Reachable(s: State, steps: seq<Step>, now: int)
    decreases |steps|
  {
    if steps == [] then s == Init(now) else
      var n := |steps| - 1;
      exists t :: Reachable(t, steps[..n], now) && Enabled(t, steps[n]) && s == Next(t, steps[n])
  }
}

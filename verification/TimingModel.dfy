/** All runs of a time-managed federate: requests to advance, grants, and the timers processed in
    between. Callbacks of timers may register timers that are due later. */
module TimingModel {
  import opened Wrappers
  import opened Timers
  import opened TimingServices

  /** A timer put into the queue once; a timer registered by a callback has an id of its own. */
  type Id = nat

  /** A callback run: of which timer, the due time it was for, and the logical time it ran at. */
  datatype Ran = Ran(id: Id, due: int, logical: int)

  /** A request for the next message up to a time, or for exactly that time. */
  datatype Pending = NextMessage(time: int) | TimeAdvance(time: int)

  /** The federate's clock and queue; pending is what was requested and not granted yet, due is the
      flag that timers are to be processed, registered has each timer as it was registered, before joining
      or by a callback. */
  datatype Federate = Federate(
    constrained: bool, regulating: bool, lookahead: int,
    logical: int, pending: Option<Pending>, due: bool, user: int,
    queue: map<Id, Timer>, registered: map<Id, Timer>, ran: seq<Ran>)

  datatype Step =
    | Grant(time: int)
    | Process(queue: map<Id, Timer>, ran: seq<Ran>, spawned: map<Id, Timer>)
    | Advance(first: Option<int>)
    | UserRequest(time: int)

  /** The due times for which the callback of a timer ran, in order. */
  function RanAt(ran: seq<Ran>, id: Id): seq<int> {
    if ran == [] then [] else
      var n := |ran| - 1;
      RanAt(ran[..n], id) + if ran[n].id == id then [ran[n].due] else []
  }

  /** What becomes of a queued timer when the timers are processed until u: unless it is canceled,
      a cyclic one and one that is not due yet stay queued, at the next time. */
  ghost predicate Kept(t: Timer, id: Id, u: int, next: map<Id, Timer>) {
    && (!t.canceled && (t.cyclic || t.due > u) ==> id in next)
    && (id in next ==> (t.cyclic || ToFire(t, u) == []) && next[id] == After(t, |ToFire(t, u)|))
  }

  /** What processing the timers until u leaves and runs: each queued timer runs exactly at the times
      it is to fire at, all in the order of their due times; then nothing queued is due. The timers
      that the callbacks register, each under an id of its own, are queued as they were registered,
      and nothing else is new in the queue. */
  ghost predicate ProcessedUntil(queue: map<Id, Timer>, u: int, spawned: map<Id, Timer>, next: map<Id, Timer>,
      ran: seq<Ran>) {
    && (forall r :: r in ran ==> r.id in queue && r.logical == u)
    && (forall i, j :: 0 <= i < j < |ran| ==> ran[i].due <= ran[j].due)
    && (forall id :: id in queue ==> RanAt(ran, id) == ToFire(queue[id], u) && Kept(queue[id], id, u, next))
    && (forall id :: id in next ==> next[id].due > u && (next[id].cyclic ==> next[id].period > 0))
    && (forall id :: id in spawned ==> id !in queue && id in next && next[id] == spawned[id] && !spawned[id].canceled)
    && (forall id :: id in next && id !in queue ==> id in spawned)
    && (ran == [] ==> spawned == map[])
  }

  /** The earliest due time in the queue, if any. */
  ghost predicate FirstDue(queue: map<Id, Timer>, due: Option<int>) {
    if due.None? then queue == map[]
    else
      && (exists id :: id in queue && queue[id].due == due.value)
      && (forall id :: id in queue ==> due.value <= queue[id].due)
  }

  /** A grant answers a pending request: at most at the requested time if the next message was asked
      for, at exactly that time if the time was, and never before an earlier grant. Timers
      are processed before the next request; those registered meanwhile are new. */
  ghost predicate Enabled(f: Federate, step: Step) {
    match step
    case Grant(time) => f.pending.Some? && time >= f.logical
      && (match f.pending.value case NextMessage(until) => time <= until case TimeAdvance(at) => time == at)
    case Process(queue, ran, spawned) =>
      if f.due then
        ProcessedUntil(f.queue, f.logical, spawned, queue, ran) && (forall id :: id in spawned ==> id !in f.registered)
      else queue == f.queue && ran == [] && spawned == map[]
    case Advance(first) => !f.due && FirstDue(f.queue, first)
    case UserRequest(_) => true
  }

  function Next(f: Federate, step: Step): Federate {
    match step
    case Grant(time) => f.(pending := None, logical := Latest(f.logical, time), due := f.due || time > f.logical)
    case Process(queue, ran, spawned) =>
      f.(due := false, queue := queue, ran := f.ran + ran, registered := f.registered + spawned)
    case Advance(first) =>
      (match NextRequest(f.pending.None?, f.constrained, f.regulating, f.lookahead, f.logical, f.user, first)
       case NoRequest => f
       case NextMessageRequest(time) => f.(pending := Some(NextMessage(time)))
       case TimeAdvanceRequest(time) => f.(pending := Some(TimeAdvance(time)))
       case Unsent => f)
    case UserRequest(time) => if f.regulating && time > f.logical then f.(user := time) else f
  }

  /** A federate that just joined: its timers are due later. */
  ghost predicate Joined(f: Federate) {
    && (f.constrained || f.regulating) && f.pending == None && !f.due && f.user == 0 && f.logical >= 0 && f.ran == []
    && f.lookahead >= 0 && f.registered == f.queue
    && forall id :: id in f.queue ==> f.queue[id].due > f.logical && (f.queue[id].cyclic ==> f.queue[id].period > 0)
  }

  ghost predicate Reachable(f: Federate, steps: seq<Step>, start: Federate)
    decreases |steps|
  {
    if steps == [] then f == start else
      var n := |steps| - 1;
      exists g :: Reachable(g, steps[..n], start) && Enabled(g, steps[n]) && f == Next(g, steps[n])
  }

  // ----- One outstanding request -----

  /** A request that is pending asks for a time later than now, no timers are to be processed while
      it is, and none is made while one is pending. */
  ghost predicate OneRequest(f: Federate) {
    && (f.constrained || f.regulating)
    && (f.pending.Some? ==>
      f.pending.value.time > f.logical && !f.due
      && (f.pending.value.NextMessage? <==> f.constrained))
  }

  // ----- Timers on time -----

  /** No queued timer is late: none is due before now; none is due now unless the timers are to be
      processed; none is due before the time requested. Every callback ran at its due time. */
  ghost predicate OnTime(f: Federate) {
    && (forall id :: id in f.queue ==> if f.due then f.queue[id].due >= f.logical else f.queue[id].due > f.logical)
    && (forall id :: id in f.queue && f.pending.Some? ==> f.queue[id].due >= f.pending.value.time)
    && (forall r :: r in f.ran ==> r.due == r.logical)
  }

  /** The user did not ask for a time beyond a queued timer. */
  ghost predicate Patient(f: Federate) {
    f.user > f.logical ==> forall id :: id in f.queue ==> f.user <= f.queue[id].due
  }

  // ----- Every timer runs -----

  /** A registered timer runs at the times it is to fire at and at no others: what ran, followed by
      what the queued timer is to run now, is what it was to run until now. It stays queued unless it
      is canceled or has run once and for all. */
  ghost predicate Served(f: Federate, id: Id)
    requires id in f.registered
  {
    var t, dues := f.registered[id], RanAt(f.ran, id);
    && (t.cyclic ==> t.period > 0)
    && if id in f.queue then Owes(t, f.queue[id], dues, f.logical)
       else dues == ToFire(t, f.logical) && (t.canceled || (!t.cyclic && t.due <= f.logical))
  }

  ghost predicate Owes(t: Timer, now: Timer, dues: seq<int>, u: int) {
    (t.cyclic || dues == []) && now == After(t, |dues|) && dues + ToFire(now, u) == ToFire(t, u)
  }

  ghost predicate AllServed(f: Federate) {
    && (forall id :: id in f.queue ==> id in f.registered)
    && (forall id :: id in f.registered ==> Served(f, id))
    && (forall r :: r in f.ran ==> r.id in f.registered)
  }

  /** Along the run the user never asked for a time beyond a queued timer when a request was made. */
  ghost predicate ReachablePatiently(f: Federate, steps: seq<Step>, start: Federate)
    decreases |steps|
  {
    if steps == [] then f == start else
      var n := |steps| - 1;
      exists g :: ReachablePatiently(g, steps[..n], start) && Enabled(g, steps[n])
        && (steps[n].Advance? ==> Patient(g)) && f == Next(g, steps[n])
  }

  /** The timer is queued at its next time, unless it is canceled or has run once and for all. */
  ghost predicate Waits(t: Timer, id: Id, f: Federate) {
    !t.canceled && (t.cyclic || t.due > f.logical) ==>
      id in f.queue && f.queue[id] == After(t, |ToFire(t, f.logical)|)
  }

  function Processed(queue: map<Id, Timer>, u: int): map<Id, Timer> {
    map id | id in queue && (queue[id].due > u || (queue[id].cyclic && !queue[id].canceled)) ::
      After(queue[id], |ToFire(queue[id], u)|)
  }

  function Phase(f: Federate): nat {
    if f.due then 2 else if f.pending.None? then 1 else 0
  }

  ghost predicate WithoutUser(steps: seq<Step>) {
    forall step :: step in steps ==> !step.UserRequest?
  }
}

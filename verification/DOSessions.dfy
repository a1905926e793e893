/** One session of two federates, one with the provider of a data member, one with its consumer:
    their distributed-object services, with everything else these do, joined by the channels of
    the RTI. Every run of them is a run of the link of LateJoin, so that the consumer converges. */
module DOSessions {
  import opened Wrappers
  import opened DOModel
  import opened DORuns
  import opened DOInvariants
  import opened DORemotes
  import opened DOTargets
  import opened Packets
  import opened DOLink
  import L = LateJoin

  /** The handle of the provider's source and the object the RTI gives it, the member's name and
      connection type, whether the provider transmits only on change, and the data of an earlier
      session that the source starts with. */
  datatype Ends = Ends(h: Handle, obj: Object, name: string, conn: string, onChange: bool, initial: Payload)

  /** The runs of the two services, the values at both ends, the values set since connecting and
      those the consumer took, whether the RTI takes the consumer for subscribed to the object, what
      was said about the object and not delivered yet, and the requests under way. */
  datatype Session = Session(
    p: Run, c: Run, provided: Payload, consumed: Payload, sets: seq<Payload>, took: seq<Payload>,
    subscribed: bool, toConsumer: seq<Said>, toProvider: seq<L.Ask>)

  datatype Move =
    | Set(value: Payload)
    | AtProvider(step: Step, leak: bool)
    | AtConsumer(step: Step)
    | Deliver
    | Request
    | ForeignRequest(nameRequested: bool, leak: bool)

  ghost predicate Awaits(st: State, uuid: Uuid, h: Handle) {
    exists s :: s in st.locals && s.uuid == uuid && s.handle == h
  }

  /** Within the session neither federate is reset and the source stays registered. The RTI gives
      the object to this source and to no other; only the moves below concern the object. No other
      source has the member's name and connection type. */
  ghost predicate Possible(e: Ends, s: Session, move: Move) {
    match move
    case Set(_) => true
    case AtProvider(step, _) =>
      && Enabled(s.p, step) && !step.ResetAll?
      && ((step.Unregister? || step.Submit?) ==> step.handle != e.h)
      && (step.Provide? ==> step.obj != e.obj)
      && (step.Reserved? ==> (step.obj == e.obj <==> Awaits(s.p.st, step.uuid, e.h)))
    case AtConsumer(step) =>
      && Enabled(s.c, step) && !step.ResetAll? && Foreign(e, step)
    case Deliver => s.toConsumer != []
    case Request => s.toProvider != []
    case ForeignRequest(_, _) => e.h in s.p.st.usable
  }

  /** A step of the consumer's service that is not about the object, and not about another source of
      the member's name and connection type. */
  predicate Foreign(e: Ends, step: Step) {
    && ((step.SourceUpdate? || step.SourceRemoved?) ==> step.obj != e.obj)
    && (step.SourceUpdate? ==> step.attrs.identity != Some((e.name, e.conn)))
  }

  /** No other remote source has the member's name and connection type. */
  ghost predicate Alone(e: Ends, st: State) {
    forall o :: o in st.remoteIndex && o != e.obj ==>
      st.remoteIndex[o].name != e.name || st.remoteIndex[o].conn != e.conn
  }

  function Transfer(s: Session, leak: bool, said: seq<Said>): Session {
    if s.c.joined && (s.subscribed || leak) then s.(toConsumer := s.toConsumer + said) else s
  }

  function Provided(e: Ends, s: Session, nameRequested: bool): seq<Said> {
    SaidBy(ProvideSource(s.p.st, e.obj, nameRequested).calls, e.obj, e.name, e.conn)
  }

  /** The attributes in which the consumer's service receives what was said. */
  function AttributesOf(e: Ends, said: Said): Attributes
    requires !said.SaidObject?
  {
    Attributes(if said.SaidName? then Some((e.name, e.conn)) else None, Some(said.data))
  }

  /** The payload the callback stores, if it was run. */
  function StoredOf(events: seq<Event>): Option<Payload> {
    var received := ReceivedOf(events);
    if received == [] then None else DataPayload(received[0])
  }

  /** The data that the member's callback was run with. */
  function ForMember(e: Ends, st: State, events: seq<Event>): seq<Payload> {
    if events == [] then [] else ForCallback(e, st, events[0]) + ForMember(e, st, events[1..])
  }

  function ForCallback(e: Ends, st: State, event: Event): seq<Payload> {
    if event.Receive? && (e.conn, e.name) in st.callbacks && event.target == st.callbacks[(e.conn, e.name)]
    then [event.data] else []
  }

  /** The values that these data carry are stored, one after the other. */
  function Stored(s: Session, ds: seq<Payload>): Session {
    if ds == [] then s else
      var t := Stored(s, ds[..|ds| - 1]);
      var v := DataPayload(ds[|ds| - 1]);
      if v.Some? then t.(consumed := v.value, took := t.took + [v.value]) else t
  }

  /** The session after the consumer's service reacted to an update. */
  function Reacted(e: Ends, s: Session, said: Said): Session
    requires !said.SaidObject?
  {
    var step := SourceUpdate(e.obj, AttributesOf(e, said));
    var effect := Operation(s.c.st, step);
    var stored := StoredOf(effect.events);
    s.(c := Next(s.c, step), toProvider := s.toProvider + AsksOf(effect.calls, e.obj),
       consumed := if stored.Some? then stored.value else s.consumed,
       took := if stored.Some? then s.took + [stored.value] else s.took)
  }

  function Delivered(e: Ends, s: Session): Session
    requires s.toConsumer != []
  {
    var said, t := s.toConsumer[0], s.(toConsumer := s.toConsumer[1..]);
    if said.SaidObject? then t.(toProvider := t.toProvider + AsksOf(DiscoverSourceObject(t.c.st, e.obj).calls, e.obj))
    else Reacted(e, t, said)
  }

  /** The provider's value is set: its callback submits a packet, unless it runs on change only and
      the value is the same. */
  function WithValue(e: Ends, s: Session, v: Payload): Session {
    s.(p := if e.onChange && v == s.provided then s.p else Next(s.p, Submit(e.h, DataPacket(v))), provided := v,
      sets := s.sets + [v])
  }

  /** The provider's service is asked for its attributes. */
  function Asked(e: Ends, s: Session, nameRequested: bool, leak: bool): Session {
    Transfer(s.(p := Next(s.p, Provide(e.obj, nameRequested))), leak, Provided(e, s, nameRequested))
  }

  function Answered(e: Ends, s: Session): Session
    requires s.toProvider != []
  {
    var ask, rest := s.toProvider[0], s.toProvider[1..];
    if ask.Unsubscription? then s.(toProvider := rest, subscribed := false)
    else Asked(e, s.(toProvider := rest, subscribed := true), ask.AskName?, false)
  }

  /** The consumer's service made a step: it may have joined, and asked for the object. */
  function ConsumerMoved(e: Ends, s: Session, step: Step): Session {
    s.(c := Next(s.c, step), subscribed := s.subscribed || step.Join?,
       toConsumer := s.toConsumer + if step.Join? && e.h in s.p.st.usable then [SaidObject] else [],
       toProvider := s.toProvider + AsksOf(Operation(s.c.st, step).calls, e.obj))
  }

  function After(e: Ends, s: Session, move: Move): Session
    requires Possible(e, s, move)
  {
    match move
    case Set(v) => WithValue(e, s, v)
    case AtProvider(step, leak) =>
      Transfer(s.(p := Next(s.p, step)), leak, SaidBy(Operation(s.p.st, step).calls, e.obj, e.name, e.conn))
    case AtConsumer(step) =>
      Stored(ConsumerMoved(e, s, step), ForMember(e, s.c.st, Operation(s.c.st, step).events))
    case Deliver => Delivered(e, s)
    case Request => Answered(e, s)
    case ForeignRequest(n, leak) => Asked(e, s, n, leak)
  }

  ghost predicate InSomeRun(r: Run) {
    exists steps, discoverers :: DORuns.Reachable(r, steps, discoverers)
  }

  /** The provider connects: its source has no object yet and nothing was transmitted for it; the
      consumer may have joined and registered its target or not. */
  ghost predicate Begins(e: Ends, s: Session) {
    && InSomeRun(s.p) && InSomeRun(s.c)
    && e.h in s.p.issued && s.p.issued[e.h] == (e.name, e.conn) && e.h !in s.p.st.usable
    && Of(s.p.sent, e.h) == [] && Of(s.p.st.transmits, e.h) == []
    && (e.initial == [] || L.Packet(e.initial))
    && (forall q :: (q in s.p.st.persistent || q in s.p.st.buffered) && q.handle == e.h ==> q.last == e.initial)
    && (forall x :: x in s.p.st.locals ==> if x.handle == e.h then x.last == e.initial else x.obj != Some(e.obj))
    && e.obj !in s.c.st.remoteIndex && Alone(e, s.c.st) && s.subscribed == s.c.joined
    && s.toConsumer == [] && s.toProvider == [] && s.sets == [] && s.took == []
  }

  ghost predicate Reached(e: Ends, s: Session, moves: seq<Move>, start: Session)
    decreases |moves|
  {
    if moves == [] then s == start else
      var n := |moves| - 1;
      exists t :: Reached(e, t, moves[..n], start) && Possible(e, t, moves[n]) && s == After(e, t, moves[n])
  }

  // ----- What a session keeps -----

  /** A callback is stored exactly for the name and connection type of each local target. */
  ghost predicate Targets(st: State) {
    forall name, conn :: HasLocalTarget(st.localTargets, name, conn) <==> (conn, name) in st.callbacks
  }

  ghost predicate Sound(e: Ends, s: Session) {
    && Invariant(s.p) && Invariant(s.c) && Remotes(s.c) && Targets(s.c.st) && Recorded(s.c.st) && Lined(s.c)
    && Alone(e, s.c.st)
    && e.h in s.p.issued && s.p.issued[e.h] == (e.name, e.conn)
    && (forall q :: q in s.p.st.persistent && q.handle == e.h ==> q.last == e.initial)
  }

  /** The values the consumer took are those of the packets at these positions. */
  ghost predicate TookAt(initial: Payload, handed: seq<Payload>, marks: seq<nat>, took: seq<Payload>) {
    && |marks| == |took|
    && forall i :: 0 <= i < |took| ==>
      marks[i] <= |handed| && DataPayload(L.Nth(initial, handed, marks[i])) == Some(took[i])
  }

  /** The link that a session is seen as. */
  ghost predicate SeenAs(e: Ends, s: Session, l: L.Link) {
    && l.onChange == e.onChange && l.initial == e.initial
    && l.provided == s.provided && l.consumed == s.consumed && l.sets == s.sets
    && l.joined == s.c.joined && l.subscribed == s.subscribed
    && Says(l.toConsumer) == s.toConsumer && l.toProvider == s.toProvider
    && ConsumerAt(l, s.c.st, e.obj, e.name, e.conn) && ProviderAt(l, s.p.st, s.p.sent, e.h, e.obj)
    && TookAt(l.initial, l.handed, l.taken, s.took)
  }

  /** The link that a session begins as. */
  function LinkAt(e: Ends, s: Session): L.Link {
    L.Start(e.onChange, s.provided, e.initial, s.consumed, s.c.joined,
      HasLocalTarget(s.c.st.localTargets, e.name, e.conn))
  }

  /** The consumer's federate registered a target for the member. */
  ghost predicate Wanted(e: Ends, st: State) {
    exists q :: q in st.persistentTargets && q.name == e.name && q.conn == e.conn
  }

  /** Both federates are up, the consumer has its target, and nothing is under way. */
  predicate Settled(e: Ends, s: Session) {
    && s.c.joined && e.h in s.p.st.usable && HasLocalTarget(s.c.st.localTargets, e.name, e.conn)
    && Of(s.p.st.transmits, e.h) == [] && s.toConsumer == [] && s.toProvider == []
  }

  /** A federate that registered one source after joining. */
  function Registered(name: string, conn: string): Run {
    Next(Joined(), Register(name, conn))
  }

  function Joined(): Run {
    Next(Next(Start({}), EnterInitFederate), Join)
  }
}

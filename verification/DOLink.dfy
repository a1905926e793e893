/** The link of LateJoin is what two distributed-object services do, seen through one object: each
    operation of the provider's and of the consumer's service makes the link's step and sends what
    the link sends. */
module DOLink {
  import opened Wrappers
  import opened DOModel
  import opened DORuns
  import opened DOInvariants
  import opened DORemotes
  import opened Packets
  import L = LateJoin

  // ----- The consumer -----

  /** The consumer's service and the link agree on the object: whether it is known, under which
      name, and whether it has a target and a callback for it. */
  ghost predicate ConsumerAt(l: L.Link, c: State, obj: Object, name: string, conn: string) {
    && (l.known <==> obj in c.remoteIndex)
    && (l.known ==> c.remoteIndex[obj] == Remote(name, conn, obj))
    && (l.target <==> HasLocalTarget(c.localTargets, name, conn))
    && (l.target <==> (conn, name) in c.callbacks)
  }

  function AsksOf(calls: seq<RtiCall>, obj: Object): seq<L.Ask> {
    if calls == [] then [] else AskOf(calls[0], obj) + AsksOf(calls[1..], obj)
  }

  function AskOf(call: RtiCall, obj: Object): seq<L.Ask> {
    match call
    case RequestName(o) => if o == obj then [L.AskName] else []
    case RequestData(o) => if o == obj then [L.AskValue] else []
    case Unsubscribe(o) => if o == obj then [L.Unsubscription] else []
    case _ => []
  }

  /** The data the callback of (conn, name) is run with. */
  function ReceivedOf(events: seq<Event>): seq<Payload> {
    if events == [] then [] else (if events[0].Receive? then [events[0].data] else []) + ReceivedOf(events[1..])
  }

  /** The service's reaction to a message. */
  function Reaction(c: State, m: L.Message, obj: Object, name: string, conn: string): Effect {
    match m
    case Discover => DiscoverSourceObject(c, obj)
    case NameUpdate(data, _) => HandleSourceUpdate(c, obj, Attributes(Some((name, conn)), Some(data)))
    case ValueUpdate(data, _) => HandleSourceUpdate(c, obj, Attributes(None, Some(data)))
  }

  /** The link after the service reacted: it knows what the service knows, asked what the service
      asked, and stored the data its callback was run with. */
  ghost predicate Follows(l: L.Link, r: L.Link, e: Effect, nth: nat, obj: Object) {
    && r.toProvider == l.toProvider + AsksOf(e.calls, obj)
    && var known := l.(known := r.known, toProvider := r.toProvider);
       r == if ReceivedOf(e.events) == [] then known else L.Store(known, ReceivedOf(e.events)[0], nth)
  }

  ghost predicate Names(rs: seq<Remote>, obj: Object, wanted: string) {
    exists x :: x in rs && x.obj == obj && x.name == wanted
  }

  /** What registering a target does to the link: its own target, one of the same name, or another. */
  function TargetAdded(l: L.Link, r: TargetRegistration, name: string, conn: string): L.Link {
    if r.name != name then l
    else if r.conn == conn && !l.target then L.Next(l, L.AddTarget)
    else L.Next(l, L.AddNamesake)
  }

  // ----- The provider -----

  /** The provider's service and the link agree on the source of a handle: whether it has its
      object, what is buffered and handed over for it, and what it holds. */
  ghost predicate ProviderAt(l: L.Link, st: State, sent: seq<Transmit>, h: Handle, obj: Object) {
    && (l.registered <==> h in st.usable)
    && l.buffered == Of(st.transmits, h) && l.handed == Of(sent, h)
    && (forall s :: s in st.locals ==> SourceAt(l, s, h, obj))
    && (forall q :: q in st.buffered && q.handle == h ==> q.last == L.Last(l))
  }

  predicate SourceAt(l: L.Link, s: Source, h: Handle, obj: Object) {
    if s.handle == h then s.last == L.Last(l) && (l.registered ==> s.obj == Some(obj)) else s.obj != Some(obj)
  }

  /** What is said about an object, by RTI calls or by messages. */
  datatype Said = SaidObject | SaidName(data: Payload) | SaidValue(data: Payload)

  function SaidOf(call: RtiCall, obj: Object, name: string, conn: string): seq<Said> {
    match call
    case RegisterObject(o, _) => if o == obj then [SaidObject] else []
    case UpdateName(o, n, c, data) => if o == obj && n == name && c == conn then [SaidName(data)] else []
    case UpdateData(o, data) => if o == obj then [SaidValue(data)] else []
    case _ => []
  }

  function SaidBy(calls: seq<RtiCall>, obj: Object, name: string, conn: string): seq<Said> {
    if calls == [] then [] else
      var n := |calls| - 1;
      SaidBy(calls[..n], obj, name, conn) + SaidOf(calls[n], obj, name, conn)
  }

  function Says(ms: seq<L.Message>): (r: seq<Said>)
    ensures |r| == |ms|
    ensures forall i :: 0 <= i < |ms| ==> r[i] == match ms[i]
      case Discover => SaidObject
      case NameUpdate(data, _) => SaidName(data)
      case ValueUpdate(data, _) => SaidValue(data)
  {
    seq(|ms|, i requires 0 <= i < |ms| => match ms[i]
      case Discover => SaidObject
      case NameUpdate(data, _) => SaidName(data)
      case ValueUpdate(data, _) => SaidValue(data))
  }

  function Values(ds: seq<Payload>): (r: seq<Said>)
    ensures |r| == |ds| && forall i :: 0 <= i < |ds| ==> r[i] == SaidValue(ds[i])
  {
    seq(|ds|, i requires 0 <= i < |ds| => SaidValue(ds[i]))
  }

  ghost predicate ObjectOf(locals: seq<Source>, t: Handle, h: Handle, obj: Object) {
    t == h <==> FindLocal(locals, t).Some? && FindLocal(locals, t).value.obj == Some(obj)
  }

  function DataCall(locals: seq<Source>, t: Transmit): RtiCall
    requires HasObject(locals, t.handle)
  {
    UpdateData(FindLocal(locals, t.handle).value.obj.value, t.data)
  }
}

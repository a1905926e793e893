/** The state of the distributed-object service of one federate and what each of its operations
    does to it: the registrations, the local and remote objects, the transmit buffer, the calls
    made to the RTI and the callbacks run. */
module DOModel {
  import opened Bits
  import opened Wrappers

  type Payload = seq<Octet>
  type Handle = nat // handle of a registration, counted up from 1
  type Object = nat // rti::ObjectInstanceHandle
  type Uuid = nat // the name an HLA object is given

  const DEFAULT_CONNECTION_TYPE := ""
  const INVALID_HANDLE: Handle := 0

  /** As far as the service distinguishes the states of the ambassador. */
  datatype Phase = Offline | InitFederate | Online

  datatype SourceRegistration = SourceRegistration(name: string, conn: string, handle: Handle, last: Payload)
  datatype TargetRegistration = TargetRegistration(name: string, conn: string, handle: Handle)
  datatype Source = Source(name: string, uuid: Uuid, conn: string, handle: Handle, obj: Option<Object>, last: Payload)
  datatype Target = Target(name: string, uuid: Uuid, conn: string, handle: Handle)
  datatype Remote = Remote(name: string, conn: string, obj: Object)
  datatype Transmit = Transmit(handle: Handle, data: Payload)

  /** usable holds the keys of the map from handles to local sources; callbacks maps connection
      type and name to the target whose callback is stored. */
  datatype State = State(
    phase: Phase,
    persistent: seq<SourceRegistration>,
    buffered: seq<SourceRegistration>,
    locals: seq<Source>,
    usable: set<Handle>,
    transmits: seq<Transmit>,
    persistentTargets: seq<TargetRegistration>,
    bufferedTargets: seq<TargetRegistration>,
    localTargets: seq<Target>,
    callbacks: map<(string, string), Handle>,
    remotes: seq<Remote>,
    remoteIndex: map<Object, Remote>,
    remoteTargets: seq<Remote>,
    remoteTargetIndex: map<Object, Remote>,
    nextSource: Handle,
    nextTarget: Handle,
    nextUuid: Uuid,
    discoverers: set<string>)

  datatype RtiCall =
    | Reserve(uuid: Uuid)
    | RegisterObject(obj: Object, uuid: Uuid)
    | UpdateName(obj: Object, name: string, conn: string, last: Payload)
    | UpdateData(obj: Object, data: Payload)
    | RequestName(obj: Object)
    | RequestData(obj: Object)
    | Unsubscribe(obj: Object)
    | DeleteObject(deleted: Option<Object>)

  datatype Event =
    | Receive(target: Handle, data: Payload)
    | DiscoverSource(obj: Object)
    | LostSource(obj: Object)
    | DiscoverTarget(obj: Object)
    | LostTarget(obj: Object)

  datatype Effect = Effect(st: State, calls: seq<RtiCall>, events: seq<Event>)

  // ----- Registration -----

  function RegisterSource(st: State, name: string, conn: string): State {
    var r := SourceRegistration(name, conn, st.nextSource, []);
    st.(persistent := st.persistent + [r],
        buffered := if st.phase.Offline? then st.buffered else st.buffered + [r],
        nextSource := st.nextSource + 1)
  }

  function RegisterTarget(st: State, name: string, conn: string): State {
    var r := TargetRegistration(name, conn, st.nextTarget);
    st.(persistentTargets := st.persistentTargets + [r],
        bufferedTargets := if st.phase.Offline? then st.bufferedTargets else st.bufferedTargets + [r],
        nextTarget := st.nextTarget + 1)
  }

  /** Called when the federation is joined. */
  function ProcessPersistentRegistrations(st: State): State {
    st.(buffered := st.buffered + st.persistent, bufferedTargets := st.bufferedTargets + st.persistentTargets)
  }

  function WithoutRegistration(rs: seq<SourceRegistration>, h: Handle): seq<SourceRegistration> {
    if rs == [] then [] else if rs[0].handle == h then rs[1..] else [rs[0]] + WithoutRegistration(rs[1..], h)
  }

  function WithoutSource(ss: seq<Source>, h: Handle): seq<Source> {
    if ss == [] then [] else if ss[0].handle == h then ss[1..] else [ss[0]] + WithoutSource(ss[1..], h)
  }

  function RegisteredHandles(rs: seq<SourceRegistration>): set<Handle> {
    set r | r in rs :: r.handle
  }

  function LocalHandles(ss: seq<Source>): set<Handle> {
    set s | s in ss :: s.handle
  }

  /** The first local source with the handle, as std::find_if returns it. */
  function FindLocal(ss: seq<Source>, h: Handle): (r: Option<Source>)
    ensures r.Some? <==> h in LocalHandles(ss)
    ensures r.Some? ==> r.value in ss && r.value.handle == h
  {
    if ss == [] then None else
      assert ss == [ss[0]] + ss[1..];
      if ss[0].handle == h then Some(ss[0]) else FindLocal(ss[1..], h)
  }

  function UnregisterSource(st: State, h: Handle): Effect {
    if h !in RegisteredHandles(st.persistent) then Effect(st, [], []) else
      WithoutBuffered(st.(persistent := WithoutRegistration(st.persistent, h)), h)
  }

  /** A source still buffered is only erased there; a local source is erased from the map and the
      list, and while online its object is deleted. */
  function WithoutBuffered(st: State, h: Handle): Effect {
    if h in RegisteredHandles(st.buffered) then
      Effect(st.(buffered := WithoutRegistration(st.buffered, h)), [], [])
    else
      match FindLocal(st.locals, h)
      case None => Effect(st, [], [])
      case Some(s) =>
        Effect(st.(usable := st.usable - {h}, locals := WithoutSource(st.locals, h)),
               if st.phase.Online? then [DeleteObject(s.obj)] else [], [])
  }

  // ----- Processing the buffers -----

  function CreateSource(st: State, r: SourceRegistration): Effect {
    Effect(st.(locals := st.locals + [Source(r.name, st.nextUuid, r.conn, r.handle, None, r.last)],
               nextUuid := st.nextUuid + 1),
           [Reserve(st.nextUuid)], [])
  }

  /** A value-update request for every remote source of that name, whatever its connection type. */
  function RequestsFor(remotes: seq<Remote>, name: string): seq<RtiCall> {
    if remotes == [] then [] else
      (if remotes[0].name == name then [RequestData(remotes[0].obj)] else []) + RequestsFor(remotes[1..], name)
  }

  function CreateTarget(st: State, r: TargetRegistration): Effect {
    Effect(st.(localTargets := st.localTargets + [Target(r.name, st.nextUuid, r.conn, r.handle)],
               callbacks := st.callbacks[(r.conn, r.name) := r.handle],
               nextUuid := st.nextUuid + 1),
           [Reserve(st.nextUuid)] + RequestsFor(st.remotes, r.name), [])
  }

  function CreateSources(st: State, rs: seq<SourceRegistration>): Effect {
    if rs == [] then Effect(st, [], []) else
      var n := |rs| - 1;
      var a := CreateSources(st, rs[..n]);
      var b := CreateSource(a.st, rs[n]);
      Effect(b.st, a.calls + b.calls, [])
  }

  function CreateTargets(st: State, rs: seq<TargetRegistration>): Effect {
    if rs == [] then Effect(st, [], []) else
      var n := |rs| - 1;
      var a := CreateTargets(st, rs[..n]);
      var b := CreateTarget(a.st, rs[n]);
      Effect(b.st, a.calls + b.calls, [])
  }

  function WithLast(ss: seq<Source>, h: Handle, data: Payload): (r: seq<Source>)
    ensures |r| == |ss|
    ensures forall i :: 0 <= i < |ss| ==> r[i] == if ss[i].handle == h then ss[i].(last := data) else ss[i]
  {
    seq(|ss|, i requires 0 <= i < |ss| => if ss[i].handle == h then ss[i].(last := data) else ss[i])
  }

  /** One buffered transmission: remembered as the last data and handed to the RTI, or kept while
      the source is not registered. The state holds what is kept so far. */
  function TransmitOne(st: State, t: Transmit): Effect {
    if t.handle in st.usable && t.handle in LocalHandles(st.locals)
      && FindLocal(st.locals, t.handle).value.obj.Some? then
      Effect(st.(locals := WithLast(st.locals, t.handle, t.data)),
             [UpdateData(FindLocal(st.locals, t.handle).value.obj.value, t.data)], [])
    else Effect(st.(transmits := st.transmits + [t]), [], [])
  }

  function TransmitAll(st: State, ts: seq<Transmit>): Effect {
    if ts == [] then Effect(st, [], []) else
      var n := |ts| - 1;
      var a := TransmitAll(st, ts[..n]);
      var b := TransmitOne(a.st, ts[n]);
      Effect(b.st, a.calls + b.calls, [])
  }

  function ProcessBuffers(st: State): Effect {
    var a := CreateTargets(st, st.bufferedTargets);
    var b := CreateSources(a.st.(bufferedTargets := []), st.buffered);
    var c := TransmitAll(b.st.(buffered := [], transmits := []), st.transmits);
    Effect(c.st, a.calls + b.calls + c.calls, [])
  }

  function TransmitDOMember(st: State, h: Handle, data: Payload): State {
    st.(transmits := st.transmits + [Transmit(h, data)])
  }

  // ----- Callbacks of the RTI -----

  function FindUuid(ss: seq<Source>, uuid: Uuid): (r: Option<nat>)
    ensures r.Some? ==> r.value < |ss| && ss[r.value].uuid == uuid
    ensures r.None? ==> forall s :: s in ss ==> s.uuid != uuid
  {
    if ss == [] then None else if ss[0].uuid == uuid then Some(0) else
      var r := FindUuid(ss[1..], uuid);
      assert ss == [ss[0]] + ss[1..];
      if r.Some? then Some(r.value + 1) else None
  }

  /** The name of a source object was reserved: the object is created, announced, and usable. */
  function SourceReserved(st: State, uuid: Uuid, obj: Object): Effect {
    match FindUuid(st.locals, uuid)
    case None => Effect(st, [], [])
    case Some(i) =>
      var s := st.locals[i].(obj := Some(obj));
      Effect(st.(locals := st.locals[i := s], usable := st.usable + {s.handle}),
             [RegisterObject(obj, uuid), UpdateName(obj, s.name, s.conn, s.last)], [])
  }

  function FindObject(ss: seq<Source>, obj: Object): (r: Option<Source>)
    ensures r.Some? ==> r.value in ss && r.value.obj == Some(obj)
    ensures r.None? ==> forall s :: s in ss ==> s.obj != Some(obj)
  {
    if ss == [] then None else if ss[0].obj == Some(obj) then Some(ss[0]) else
      var r := FindObject(ss[1..], obj);
      assert ss == [ss[0]] + ss[1..];
      r
  }

  /** ProvideAttributeValueUpdate for a source: the name with the last data, or the last data. */
  function ProvideSource(st: State, obj: Object, nameRequested: bool): Effect {
    match FindObject(st.locals, obj)
    case None => Effect(st, [], [])
    case Some(s) =>
      if nameRequested then Effect(st, [UpdateName(obj, s.name, s.conn, s.last)], [])
      else if s.last != [] then Effect(st, [UpdateData(obj, s.last)], [])
      else Effect(st, [], [])
  }

  function DiscoverSourceObject(st: State, obj: Object): Effect {
    Effect(st, [RequestName(obj)], [])
  }

  predicate HasLocalTarget(ts: seq<Target>, name: string, conn: string) {
    exists i :: 0 <= i < |ts| && ts[i].name == name && ts[i].conn == conn
  }

  /** The attributes of an incoming source update: the name and connection type of a name update,
      and the data bytes. */
  datatype Attributes = Attributes(identity: Option<(string, string)>, data: Option<Payload>)

  function RunCallback(st: State, name: string, conn: string, data: Payload): seq<Event> {
    if (conn, name) in st.callbacks then [Receive(st.callbacks[(conn, name)], data)] else []
  }

  function HandleSourceUpdate(st: State, obj: Object, attrs: Attributes): Effect {
    match attrs.identity
    case Some((name, conn)) =>
      if obj in st.remoteIndex then Effect(st, [], []) else
        var r := Remote(name, conn, obj);
        var st1 := st.(remotes := st.remotes + [r], remoteIndex := st.remoteIndex[obj := r]);
        var discovered := if conn in st.discoverers then [DiscoverSource(obj)] else [];
        if HasLocalTarget(st.localTargets, name, conn) then
          Effect(st1, [], discovered +
            if attrs.data.Some? && attrs.data.value != [] then RunCallback(st1, name, conn, attrs.data.value) else [])
        else Effect(st1, [Unsubscribe(obj)], discovered)
    case None =>
      if obj !in st.remoteIndex then Effect(st, [], []) else
        var r := st.remoteIndex[obj];
        Effect(st, [], if attrs.data.Some? then RunCallback(st, r.name, r.conn, attrs.data.value) else [])
  }

  function HandleTargetUpdate(st: State, obj: Object, identity: Option<(string, string)>): Effect {
    if obj in st.remoteTargetIndex || identity.None? then Effect(st, [], []) else
      var (name, conn) := identity.value;
      var r := Remote(name, conn, obj);
      Effect(st.(remoteTargets := st.remoteTargets + [r], remoteTargetIndex := st.remoteTargetIndex[obj := r]),
             [], if conn in st.discoverers then [DiscoverTarget(obj)] else [])
  }

  function FindRemote(rs: seq<Remote>, obj: Object): (r: Option<nat>)
    ensures r.Some? ==> r.value < |rs| && rs[r.value].obj == obj
    ensures r.None? ==> forall x :: x in rs ==> x.obj != obj
  {
    if rs == [] then None else if rs[0].obj == obj then Some(0) else
      var r := FindRemote(rs[1..], obj);
      assert rs == [rs[0]] + rs[1..];
      if r.Some? then Some(r.value + 1) else None
  }

  function RemoveSourceObject(st: State, obj: Object): Effect {
    match FindRemote(st.remotes, obj)
    case None => Effect(st, [], [])
    case Some(i) =>
      Effect(st.(remotes := st.remotes[..i] + st.remotes[i + 1..], remoteIndex := st.remoteIndex - {obj}),
             [], if st.remotes[i].conn in st.discoverers then [LostSource(obj)] else [])
  }

  function RemoveTargetObject(st: State, obj: Object): Effect {
    match FindRemote(st.remoteTargets, obj)
    case None => Effect(st, [], [])
    case Some(i) =>
      Effect(st.(remoteTargets := st.remoteTargets[..i] + st.remoteTargets[i + 1..],
        remoteTargetIndex := st.remoteTargetIndex - {obj}),
             [], if st.remoteTargets[i].conn in st.discoverers then [LostTarget(obj)] else [])
  }

  // ----- Reset -----

  /** The registrations, with the last data of the sources that were usable. */
  function SavedLast(ps: seq<SourceRegistration>, locals: seq<Source>,
      usable: set<Handle>): (r: seq<SourceRegistration>)
    ensures |r| == |ps|
    ensures forall i :: 0 <= i < |ps| ==> r[i] == SavedOne(ps[i], locals, usable)
  {
    seq(|ps|, i requires 0 <= i < |ps| => SavedOne(ps[i], locals, usable))
  }

  function SavedOne(p: SourceRegistration, locals: seq<Source>, usable: set<Handle>): SourceRegistration {
    if p.handle in usable && p.handle in LocalHandles(locals) && FindLocal(locals, p.handle).value.last != []
    then p.(last := FindLocal(locals, p.handle).value.last)
    else p
  }

  /** Everything but the registrations, the counters and the discoverers is forgotten. */
  function Reset(st: State): State {
    st.(phase := Offline,
        persistent := SavedLast(st.persistent, st.locals, st.usable),
        buffered := [], locals := [], usable := {}, transmits := [],
        bufferedTargets := [], localTargets := [], callbacks := map[],
        remotes := [], remoteIndex := map[], remoteTargets := [], remoteTargetIndex := map[])
  }
}

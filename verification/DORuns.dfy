/** All runs of the distributed-object service of one federate: what its registrations, buffers,
    last data and remote objects satisfy in every reachable state. */
module DORuns {
  import opened Wrappers
  import opened DOModel

  /** The service with its history: whether the persistent registrations were processed since the
      last reset, the name and connection type each handle was issued for, which handles were
      unregistered, what was submitted and what was handed over for transmission since the last
      reset, what was handed over before it, and the events since the last reset. */
  datatype Run = Run(
    st: State,
    joined: bool,
    issued: map<Handle, (string, string)>,
    unregistered: set<Handle>,
    submitted: seq<Transmit>,
    sent: seq<Transmit>,
    before: seq<Transmit>,
    events: seq<Event>)

  datatype Step =
    | EnterInitFederate
    | Join
    | GoOnline
    | ResetAll
    | Register(name: string, conn: string)
    | RegisterT(name: string, conn: string)
    | Unregister(handle: Handle)
    | Submit(handle: Handle, data: Payload)
    | Process
    | Reserved(uuid: Uuid, obj: Object)
    | Provide(obj: Object, nameRequested: bool)
    | SourceUpdate(obj: Object, attrs: Attributes)
    | TargetUpdate(obj: Object, identity: Option<(string, string)>)
    | SourceRemoved(obj: Object)
    | TargetRemoved(obj: Object)

  /** The ambassador joins once between resets; the buffers are processed and the RTI calls back
      while joined; no registration falls between entering InitFederate and joining. */
  predicate Enabled(r: Run, step: Step) {
    match step
    case EnterInitFederate => r.st.phase.Offline?
    case Join => r.st.phase.InitFederate? && !r.joined
    case GoOnline => r.st.phase.InitFederate? && r.joined
    case ResetAll => true
    case Register(_, _) => r.st.phase.Offline? || r.joined
    case RegisterT(_, _) => r.st.phase.Offline? || r.joined
    case Unregister(_) => true
    case Submit(_, _) => true
    case Process => r.joined
    case Reserved(uuid, obj) => r.joined && uuid < r.st.nextUuid && FindObject(r.st.locals, obj).None?
    case Provide(_, _) => r.joined
    case SourceUpdate(_, _) => r.joined
    case TargetUpdate(_, _) => r.joined
    case SourceRemoved(_) => r.joined
    case TargetRemoved(_) => r.joined
  }

  /** The transmissions of usable sources, and the others. */
  function Sendable(usable: set<Handle>, ts: seq<Transmit>): seq<Transmit> {
    if ts == [] then [] else
      var n := |ts| - 1;
      Sendable(usable, ts[..n]) + if ts[n].handle in usable then [ts[n]] else []
  }

  function Unsendable(usable: set<Handle>, ts: seq<Transmit>): seq<Transmit> {
    if ts == [] then [] else
      var n := |ts| - 1;
      Unsendable(usable, ts[..n]) + if ts[n].handle in usable then [] else [ts[n]]
  }

  function Operation(st: State, step: Step): Effect {
    match step
    case EnterInitFederate => Effect(st.(phase := InitFederate), [], [])
    case Join => Effect(ProcessPersistentRegistrations(st), [], [])
    case GoOnline => Effect(st.(phase := Online), [], [])
    case ResetAll => Effect(Reset(st), [], [])
    case Register(name, conn) => Effect(RegisterSource(st, name, conn), [], [])
    case RegisterT(name, conn) => Effect(RegisterTarget(st, name, conn), [], [])
    case Unregister(h) => UnregisterSource(st, h)
    case Submit(h, data) => Effect(TransmitDOMember(st, h, data), [], [])
    case Process => ProcessBuffers(st)
    case Reserved(uuid, obj) => SourceReserved(st, uuid, obj)
    case Provide(obj, n) => ProvideSource(st, obj, n)
    case SourceUpdate(obj, attrs) => HandleSourceUpdate(st, obj, attrs)
    case TargetUpdate(obj, identity) => HandleTargetUpdate(st, obj, identity)
    case SourceRemoved(obj) => RemoveSourceObject(st, obj)
    case TargetRemoved(obj) => RemoveTargetObject(st, obj)
  }

  function Next(r: Run, step: Step): Run {
    var e := Operation(r.st, step);
    Run(e.st,
        if step.Join? then true else if step.ResetAll? then false else r.joined,
        if step.Register? then r.issued[r.st.nextSource := (step.name, step.conn)] else r.issued,
        if step.Unregister? && step.handle in RegisteredHandles(r.st.persistent) then r.unregistered + {step.handle}
          else r.unregistered,
        if step.ResetAll? then [] else if step.Submit? then r.submitted + [Transmit(step.handle, step.data)]
          else r.submitted,
        if step.ResetAll? then [] else if step.Process? then r.sent + Sendable(r.st.usable, r.st.transmits) else r.sent,
        if step.ResetAll? then r.before + r.sent else r.before,
        if step.ResetAll? then [] else r.events + e.events)
  }

  function Start(discoverers: set<string>): Run {
    Run(State(Offline, [], [], [], {}, [], [], [], [], map[], [], map[], [], map[], 1, 1, 0, discoverers), false,
      map[], {}, [], [], [], [])
  }

  ghost predicate Reachable(r: Run, steps: seq<Step>, discoverers: set<string>)
    decreases |steps|
  {
    if steps == [] then r == Start(discoverers) else
      var n := |steps| - 1;
      exists q :: Reachable(q, steps[..n], discoverers) && Enabled(q, steps[n]) && r == Next(q, steps[n])
  }

  lemma ReachedMore(r: Run, steps: seq<Step>, discoverers: set<string>, step: Step)
    requires Reachable(r, steps, discoverers) && Enabled(r, step)
    ensures Reachable(Next(r, step), steps + [step], discoverers)
  {
    hide Enabled, Next;
    assert (steps + [step])[..|steps|] == steps;
  }

  // ----- The invariant -----

  ghost predicate DistinctRegistrations(rs: seq<SourceRegistration>) {
    forall i, j :: 0 <= i < j < |rs| ==> rs[i].handle != rs[j].handle
  }

  ghost predicate DistinctLocals(ss: seq<Source>) {
    && (forall i, j :: 0 <= i < j < |ss| ==> ss[i].handle != ss[j].handle)
    && (forall i, j :: 0 <= i < j < |ss| ==> ss[i].uuid != ss[j].uuid)
  }

  /** Every handle issued and not unregistered is persistent exactly once; while joined it is also
      in exactly one of the buffered and the local collections, once. */
  ghost predicate Partition(r: Run) {
    && DistinctRegistrations(r.st.persistent) && DistinctRegistrations(r.st.buffered) && DistinctLocals(r.st.locals)
    && Divided(RegisteredHandles(r.st.persistent), RegisteredHandles(r.st.buffered), LocalHandles(r.st.locals),
               r.issued.Keys, r.unregistered, r.joined)
  }

  ghost predicate Divided(persistent: set<Handle>, buffered: set<Handle>, locals: set<Handle>,
                          issued: set<Handle>, unregistered: set<Handle>, joined: bool)
  {
    && persistent == issued - unregistered && unregistered <= issued
    && buffered !! locals
    && buffered + locals == if joined then persistent else {}
  }

  /** The next handle was never issued, and a registration or local source carries the name and
      connection type its handle was issued for. */
  ghost predicate Identified(r: Run) {
    && 1 <= r.st.nextSource && (forall h :: h in r.issued ==> 1 <= h < r.st.nextSource)
    && (forall p :: p in r.st.persistent ==> p.handle in r.issued && r.issued[p.handle] == (p.name, p.conn))
    && (forall p :: p in r.st.buffered ==> p.handle in r.issued && r.issued[p.handle] == (p.name, p.conn))
    && (forall s :: s in r.st.locals ==> s.handle in r.issued && r.issued[s.handle] == (s.name, s.conn))
  }

  /** The map from handles to sources holds exactly the local sources with an object. */
  ghost predicate SubView(r: Run) {
    && (forall s :: s in r.st.locals ==> s.uuid < r.st.nextUuid)
    && (forall s :: s in r.st.locals ==> (s.handle in r.st.usable <==> s.obj.Some?))
    && r.st.usable <= LocalHandles(r.st.locals)
    && (r.joined ==> !r.st.phase.Offline?) && (r.st.phase.Online? ==> r.joined)
  }

  function Of(ts: seq<Transmit>, h: Handle): seq<Payload> {
    if ts == [] then [] else
      var n := |ts| - 1;
      Of(ts[..n], h) + if ts[n].handle == h then [ts[n].data] else []
  }

  /** What was submitted for a handle since the last reset was handed over or is still buffered:
      nothing lost, nothing repeated, in order. */
  ghost predicate Conserved(r: Run) {
    forall h :: Of(r.sent, h) + Of(r.st.transmits, h) == Of(r.submitted, h)
  }

  /** The last payload ever handed over for the handle. */
  function LastOf(ts: seq<Transmit>, h: Handle): Payload {
    if ts == [] then [] else if ts[|ts| - 1].handle == h then ts[|ts| - 1].data else LastOf(ts[..|ts| - 1], h)
  }

  ghost predicate NonEmpty(ts: seq<Transmit>) {
    forall t :: t in ts ==> t.data != []
  }

  /** What a source of this registration holds after handing over these payloads. */
  function Holds(p: SourceRegistration, sent: seq<Transmit>): Payload {
    if Of(sent, p.handle) == [] then p.last else LastOf(sent, p.handle)
  }

  /** Between resets a registration keeps its last data, and its source holds the last payload
      handed over since. */
  ghost predicate LastHeld(r: Run) {
    && (forall t :: t in r.before + r.sent ==> t.handle in r.issued)
    && (forall p, s :: p in r.st.persistent && s in r.st.locals && p.handle == s.handle ==> s.last == Holds(p, r.sent))
    && (forall p, q :: p in r.st.persistent && q in r.st.buffered && p.handle == q.handle ==> q.last == p.last)
    && (forall p :: p in r.st.persistent && p.handle !in r.st.usable ==> Of(r.sent, p.handle) == [])
  }

  /** A registration holds the last payload handed over for it before the last reset. */
  ghost predicate LastKept(r: Run) {
    forall p :: p in r.st.persistent ==> p.last == LastOf(r.before, p.handle)
  }

  // ----- Collections -----

  lemma RegisteredConcat(a: seq<SourceRegistration>, b: seq<SourceRegistration>)
    ensures RegisteredHandles(a + b) == RegisteredHandles(a) + RegisteredHandles(b)
  {
    assert forall x :: x in a + b <==> x in a || x in b;
  }

  lemma LocalConcat(a: seq<Source>, b: seq<Source>)
    ensures LocalHandles(a + b) == LocalHandles(a) + LocalHandles(b)
  {
    assert forall x :: x in a + b <==> x in a || x in b;
  }

  lemma {:induction false} WithoutRegistrationMembers(rs: seq<SourceRegistration>, h: Handle)
    requires DistinctRegistrations(rs)
    ensures forall p :: p in WithoutRegistration(rs, h) <==> p in rs && p.handle != h
  {
    if rs != [] {
      assert rs == [rs[0]] + rs[1..];
      if rs[0].handle != h {
        WithoutRegistrationMembers(rs[1..], h);
      } else {
        assert forall p :: p in rs[1..] ==> p.handle != h;
      }
    }
  }

  lemma {:induction false} WithoutRegistrationDistinct(rs: seq<SourceRegistration>, h: Handle)
    requires DistinctRegistrations(rs)
    ensures DistinctRegistrations(WithoutRegistration(rs, h))
  {
    if rs != [] && rs[0].handle != h {
      var x, w := rs[0], WithoutRegistration(rs[1..], h);
      WithoutRegistrationDistinct(rs[1..], h);
      WithoutRegistrationMembers(rs[1..], h);
      forall i | 0 <= i < |w| ensures w[i].handle != x.handle {
        assert w[i] in rs[1..];
      }
    }
  }

  lemma WithoutRegistrationHandles(rs: seq<SourceRegistration>, h: Handle)
    requires DistinctRegistrations(rs)
    ensures DistinctRegistrations(WithoutRegistration(rs, h))
    ensures RegisteredHandles(WithoutRegistration(rs, h)) == RegisteredHandles(rs) - {h}
    ensures forall p :: p in WithoutRegistration(rs, h) ==> p in rs
  {
    hide DistinctRegistrations, WithoutRegistration;
    WithoutRegistrationMembers(rs, h);
    WithoutRegistrationDistinct(rs, h);
  }

  lemma {:induction false} WithoutSourceMembers(ss: seq<Source>, h: Handle)
    requires DistinctLocals(ss)
    ensures forall s :: s in WithoutSource(ss, h) <==> s in ss && s.handle != h
  {
    if ss != [] {
      assert ss == [ss[0]] + ss[1..];
      if ss[0].handle != h {
        WithoutSourceMembers(ss[1..], h);
      } else {
        assert forall s :: s in ss[1..] ==> s.handle != h;
      }
    }
  }

  lemma {:induction false} WithoutSourceDistinct(ss: seq<Source>, h: Handle)
    requires DistinctLocals(ss)
    ensures DistinctLocals(WithoutSource(ss, h))
  {
    if ss != [] && ss[0].handle != h {
      var x, w := ss[0], WithoutSource(ss[1..], h);
      WithoutSourceDistinct(ss[1..], h);
      WithoutSourceMembers(ss[1..], h);
      forall i | 0 <= i < |w| ensures w[i].handle != x.handle && w[i].uuid != x.uuid {
        assert w[i] in ss[1..];
      }
    }
  }

  lemma WithoutSourceHandles(ss: seq<Source>, h: Handle)
    requires DistinctLocals(ss)
    ensures DistinctLocals(WithoutSource(ss, h))
    ensures LocalHandles(WithoutSource(ss, h)) == LocalHandles(ss) - {h}
    ensures forall s :: s in WithoutSource(ss, h) <==> s in ss && s.handle != h
  {
    hide DistinctLocals, WithoutSource;
    WithoutSourceMembers(ss, h);
    WithoutSourceDistinct(ss, h);
  }

  lemma {:induction false} OfSnoc(a: seq<Transmit>, t: Transmit, h: Handle)
    ensures Of(a + [t], h) == Of(a, h) + if t.handle == h then [t.data] else []
  {
    assert (a + [t])[..|a|] == a;
  }

  lemma {:induction false} OfConcat(a: seq<Transmit>, b: seq<Transmit>, h: Handle)
    ensures Of(a + b, h) == Of(a, h) + Of(b, h)
  {
    if b == [] {
      assert a + b == a;
    } else {
      hide Of;
      var front, t := b[..|b| - 1], b[|b| - 1];
      assert b == front + [t] && a + b == (a + front) + [t];
      OfConcat(a, front, h);
      OfSnoc(a + front, t, h);
      OfSnoc(front, t, h);
    }
  }

  lemma {:induction false} SendableSnoc(usable: set<Handle>, a: seq<Transmit>, t: Transmit)
    ensures Sendable(usable, a + [t]) == Sendable(usable, a) + if t.handle in usable then [t] else []
    ensures Unsendable(usable, a + [t]) == Unsendable(usable, a) + if t.handle in usable then [] else [t]
  {
    assert (a + [t])[..|a|] == a;
  }

  lemma NoneSplit(usable: set<Handle>, h: Handle)
    ensures Of(Sendable(usable, []), h) == Of(Unsendable(usable, []), h) == Of([], h) == []
  {
  }

  lemma {:induction false} OfSplit(usable: set<Handle>, ts: seq<Transmit>, h: Handle)
    ensures Of(Sendable(usable, ts), h) == if h in usable then Of(ts, h) else []
    ensures Of(Unsendable(usable, ts), h) == if h in usable then [] else Of(ts, h)
  {
    hide *;
    if ts == [] {
      NoneSplit(usable, h);
    } else {
      var front, t := ts[..|ts| - 1], ts[|ts| - 1];
      OfSplit(usable, front, h);
      assert ts == front + [t];
      OfSplitStep(usable, front, t, h);
    }
  }

  lemma {:induction false} OfSplitStep(usable: set<Handle>, a: seq<Transmit>, t: Transmit, h: Handle)
    requires Of(Sendable(usable, a), h) == if h in usable then Of(a, h) else []
    requires Of(Unsendable(usable, a), h) == if h in usable then [] else Of(a, h)
    ensures Of(Sendable(usable, a + [t]), h) == if h in usable then Of(a + [t], h) else []
    ensures Of(Unsendable(usable, a + [t]), h) == if h in usable then [] else Of(a + [t], h)
  {
    hide Of, Sendable, Unsendable;
    SendableSnoc(usable, a, t);
    OfSnoc(a, t, h);
    var s, u := Sendable(usable, a), Unsendable(usable, a);
    assert s + [] == s && u + [] == u;
    if t.handle in usable { OfSnoc(s, t, h); } else { OfSnoc(u, t, h); }
  }

  lemma {:induction false} LastOfSnoc(a: seq<Transmit>, t: Transmit, h: Handle)
    ensures LastOf(a + [t], h) == if t.handle == h then t.data else LastOf(a, h)
  {
    assert (a + [t])[..|a|] == a;
  }

  lemma {:induction false} LastOfConcat(a: seq<Transmit>, b: seq<Transmit>, h: Handle)
    ensures LastOf(a + b, h) == if Of(b, h) == [] then LastOf(a, h) else LastOf(b, h)
  {
    if b == [] {
      assert a + b == a;
    } else {
      hide LastOf, Of;
      var front, t := b[..|b| - 1], b[|b| - 1];
      assert b == front + [t] && a + b == (a + front) + [t];
      LastOfConcat(a, front, h);
      LastOfSnoc(a + front, t, h);
      LastOfSnoc(front, t, h);
      OfSnoc(front, t, h);
    }
  }

  // ----- What processing the buffers amounts to -----

  function CreatedSources(rs: seq<SourceRegistration>, uuid: Uuid): (ss: seq<Source>)
    ensures |ss| == |rs|
    ensures forall i :: 0 <= i < |rs| ==> ss[i] == Source(rs[i].name, uuid + i, rs[i].conn, rs[i].handle, None,
      rs[i].last)
  {
    seq(|rs|, i requires 0 <= i < |rs| => Source(rs[i].name, uuid + i, rs[i].conn, rs[i].handle, None, rs[i].last))
  }

  lemma {:induction false} CreateSourcesSummary(st: State, rs: seq<SourceRegistration>)
    ensures CreateSources(st, rs).st == st.(locals := st.locals + CreatedSources(rs, st.nextUuid),
      nextUuid := st.nextUuid + |rs|)
  {
    if rs == [] {
      assert st.locals + CreatedSources(rs, st.nextUuid) == st.locals;
    } else {
      var n := |rs| - 1;
      CreateSourcesSummary(st, rs[..n]);
      assert CreatedSources(rs, st.nextUuid) == CreatedSources(rs[..n], st.nextUuid)
        + [CreatedSources(rs, st.nextUuid)[n]];
    }
  }

  /** The targets created, and the callbacks they are reached by. */
  function CreatedTargets(rs: seq<TargetRegistration>, uuid: Uuid): (ts: seq<Target>)
    ensures |ts| == |rs|
    ensures forall i :: 0 <= i < |rs| ==> ts[i] == Target(rs[i].name, uuid + i, rs[i].conn, rs[i].handle)
  {
    seq(|rs|, i requires 0 <= i < |rs| => Target(rs[i].name, uuid + i, rs[i].conn, rs[i].handle))
  }

  function WithCallbacks(callbacks: map<(string, string), Handle>, rs: seq<TargetRegistration>)
    : map<(string, string), Handle>
  {
    if rs == [] then callbacks else
      var n := |rs| - 1;
      WithCallbacks(callbacks, rs[..n])[(rs[n].conn, rs[n].name) := rs[n].handle]
  }

  lemma CreatedTargetsSnoc(rs: seq<TargetRegistration>, uuid: Uuid)
    requires rs != []
    ensures var n := |rs| - 1;
      CreatedTargets(rs, uuid) == CreatedTargets(rs[..n], uuid)
        + [Target(rs[n].name, uuid + n, rs[n].conn, rs[n].handle)]
  {
  }

  lemma {:induction false} CreateTargetsSummary(st: State, rs: seq<TargetRegistration>)
    ensures CreateTargets(st, rs).st ==
      st.(localTargets := st.localTargets + CreatedTargets(rs, st.nextUuid),
          callbacks := WithCallbacks(st.callbacks, rs), nextUuid := st.nextUuid + |rs|)
  {
    if rs == [] {
      assert st.localTargets + CreatedTargets(rs, st.nextUuid) == st.localTargets;
    } else {
      var n := |rs| - 1;
      CreateTargetsSummary(st, rs[..n]);
      CreatedTargetsSnoc(rs, st.nextUuid);
      assert CreateTargets(st, rs).st == CreateTarget(CreateTargets(st, rs[..n]).st, rs[n]).st;
      assert WithCallbacks(st.callbacks, rs) ==
        WithCallbacks(st.callbacks, rs[..n])[(rs[n].conn, rs[n].name) := rs[n].handle];
      hide CreateTargets, WithCallbacks, CreatedTargets, RequestsFor;
    }
  }

  /** Each source remembers the last of the payloads handed over for it. */
  function UpdatedLast(ss: seq<Source>, sent: seq<Transmit>): (r: seq<Source>)
    ensures |r| == |ss|
    ensures forall i :: 0 <= i < |ss| ==> r[i] == Updated(ss[i], sent)
  {
    seq(|ss|, i requires 0 <= i < |ss| => Updated(ss[i], sent))
  }

  function Updated(s: Source, sent: seq<Transmit>): Source {
    s.(last := if Of(sent, s.handle) == [] then s.last else LastOf(sent, s.handle))
  }

  lemma {:induction false} UpdatedSnoc(s: Source, sent: seq<Transmit>, t: Transmit)
    ensures Updated(s, sent + [t]) == if s.handle == t.handle then Updated(s, sent).(last := t.data)
      else Updated(s, sent)
  {
    OfSnoc(sent, t, s.handle);
    assert (sent + [t])[..|sent|] == sent;
  }

  lemma {:induction false} UpdatedLastSnoc(ss: seq<Source>, sent: seq<Transmit>, t: Transmit)
    ensures UpdatedLast(ss, sent + [t]) == WithLast(UpdatedLast(ss, sent), t.handle, t.data)
  {
    hide Updated;
    forall i | 0 <= i < |ss|
      ensures UpdatedLast(ss, sent + [t])[i] == WithLast(UpdatedLast(ss, sent), t.handle, t.data)[i]
    {
      UpdatedSnoc(ss[i], sent, t);
      assert Updated(ss[i], sent).handle == ss[i].handle by { UpdatedKeeps(ss[i], sent); }
    }
  }

  lemma UpdatedKeeps(s: Source, sent: seq<Transmit>)
    ensures Updated(s, sent).(last := s.last) == s
  {
  }

  lemma {:induction false} FindUpdated(ss: seq<Source>, sent: seq<Transmit>, h: Handle)
    ensures FindLocal(UpdatedLast(ss, sent), h) ==
      if FindLocal(ss, h).Some? then Some(Updated(FindLocal(ss, h).value, sent)) else None
  {
    if ss != [] {
      hide Updated;
      UpdatedKeeps(ss[0], sent);
      FindUpdated(ss[1..], sent, h);
      assert UpdatedLast(ss, sent)[1..] == UpdatedLast(ss[1..], sent);
    }
  }

  /** The RTI is handed exactly the transmissions of the usable sources, in order. */
  ghost function DataCalls(locals: seq<Source>, sent: seq<Transmit>): (calls: seq<RtiCall>)
    requires Ready(locals, sent)
    ensures |calls| == |sent|
    ensures forall i :: 0 <= i < |sent| ==> calls[i] == UpdateData(FindLocal(locals, sent[i].handle).value.obj.value,
      sent[i].data)
  {
    seq(|sent|, i requires 0 <= i < |sent| => UpdateData(FindLocal(locals, sent[i].handle).value.obj.value,
      sent[i].data))
  }

  ghost predicate Ready(locals: seq<Source>, sent: seq<Transmit>) {
    forall i :: 0 <= i < |sent| ==> HasObject(locals, sent[i].handle)
  }

  ghost predicate HasObject(locals: seq<Source>, h: Handle) {
    FindLocal(locals, h).Some? && FindLocal(locals, h).value.obj.Some?
  }

  lemma {:induction false} TransmitReady(st: State, st1: State, sent: seq<Transmit>, kept: seq<Transmit>, t: Transmit)
    requires st1 == st.(locals := UpdatedLast(st.locals, sent), transmits := st.transmits + kept)
    requires Ready(st.locals, sent) && HasObject(st.locals, t.handle) && t.handle in st.usable
    ensures var e := TransmitOne(st1, t);
      && Ready(st.locals, sent + [t])
      && e.st == st.(locals := UpdatedLast(st.locals, sent + [t]), transmits := st.transmits + kept)
      && DataCalls(st.locals, sent) + e.calls == DataCalls(st.locals, sent + [t])
  {
    hide LastOf, Of, WithLast, LocalHandles;
    FindUpdated(st.locals, sent, t.handle);
    UpdatedKeeps(FindLocal(st.locals, t.handle).value, sent);
    assert TransmitOne(st1, t).calls == [UpdateData(FindLocal(st.locals, t.handle).value.obj.value, t.data)];
    assert TransmitOne(st1, t).st == st1.(locals := WithLast(st1.locals, t.handle, t.data));
    hide TransmitOne, FindLocal, Updated, HasObject, UpdatedLast;
    UpdatedLastSnoc(st.locals, sent, t);
  }

  lemma {:induction false} TransmitKept(st: State, st1: State, sent: seq<Transmit>, kept: seq<Transmit>, t: Transmit)
    requires st1 == st.(locals := UpdatedLast(st.locals, sent), transmits := st.transmits + kept)
    requires t.handle !in st.usable
    ensures TransmitOne(st1, t) == Effect(st.(locals := UpdatedLast(st.locals, sent),
      transmits := st.transmits + (kept + [t])), [], [])
  {
    hide UpdatedLast;
    assert st.transmits + kept + [t] == st.transmits + (kept + [t]);
  }

  lemma {:induction false} TransmitAllSummary(st: State, ts: seq<Transmit>)
    requires forall h :: h in st.usable ==> HasObject(st.locals, h)
    ensures var sent := Sendable(st.usable, ts);
      && Ready(st.locals, sent)
      && TransmitAll(st, ts).st == st.(locals := UpdatedLast(st.locals, sent),
        transmits := st.transmits + Unsendable(st.usable, ts))
      && TransmitAll(st, ts).calls == DataCalls(st.locals, sent)
  {
    if ts == [] {
      assert UpdatedLast(st.locals, []) == st.locals;
      assert st.transmits + [] == st.transmits;
      assert DataCalls(st.locals, []) == [];
    } else {
      var front, t := ts[..|ts| - 1], ts[|ts| - 1];
      var a := TransmitAll(st, front);
      TransmitAllSummary(st, front);
      assert TransmitAll(st, ts).st == TransmitOne(a.st, t).st
        && TransmitAll(st, ts).calls == a.calls + TransmitOne(a.st, t).calls;
      var sent, kept := Sendable(st.usable, front), Unsendable(st.usable, front);
      assert sent + [] == sent && kept + [] == kept && a.calls + [] == a.calls;
      assert Sendable(st.usable, ts) == if t.handle in st.usable then sent + [t] else sent;
      assert Unsendable(st.usable, ts) == if t.handle in st.usable then kept else kept + [t];
      hide TransmitAll, TransmitOne, Sendable, Unsendable, HasObject, UpdatedLast, Ready, DataCalls;
      if t.handle in st.usable {
        TransmitReady(st, a.st, sent, kept, t);
      } else {
        TransmitKept(st, a.st, sent, kept, t);
      }
    }
  }

  lemma {:induction false} FindInFront(a: seq<Source>, b: seq<Source>, h: Handle)
    requires FindLocal(a, h).Some?
    ensures FindLocal(a + b, h) == FindLocal(a, h)
  {
    if a[0].handle != h {
      FindInFront(a[1..], b, h);
      assert (a + b)[1..] == a[1..] + b;
    }
  }

  /** Processing the buffers: the buffered registrations become local objects, the transmissions of
      usable sources are handed over in order and remembered as last data, the others stay. */
  lemma {:induction false} ProcessSummary(st: State)
    requires forall h :: h in st.usable ==> HasObject(st.locals, h)
    ensures var sent, st' := Sendable(st.usable, st.transmits), ProcessBuffers(st).st;
      && st' == st.(
           bufferedTargets := [], localTargets := st.localTargets + CreatedTargets(st.bufferedTargets, st.nextUuid),
           callbacks := WithCallbacks(st.callbacks, st.bufferedTargets),
           buffered := [],
           locals := UpdatedLast(st.locals + CreatedSources(st.buffered, st.nextUuid + |st.bufferedTargets|), sent),
           nextUuid := st.nextUuid + |st.bufferedTargets| + |st.buffered|,
           transmits := Unsendable(st.usable, st.transmits))
  {
    hide CreateTargets, CreateSources, TransmitAll, HasObject, Updated, UpdatedLast, CreatedSources, CreatedTargets,
      WithCallbacks, Sendable, Unsendable;
    CreateTargetsSummary(st, st.bufferedTargets);
    var a := CreateTargets(st, st.bufferedTargets).st.(bufferedTargets := []);
    CreateSourcesSummary(a, st.buffered);
    var b := CreateSources(a, st.buffered).st.(buffered := [], transmits := []);
    assert ProcessBuffers(st).st == TransmitAll(b, st.transmits).st;
    forall h | h in b.usable ensures HasObject(b.locals, h) {
      HasObjectInFront(st.locals, CreatedSources(st.buffered, a.nextUuid), h);
    }
    TransmitAllSummary(b, st.transmits);
    assert [] + Unsendable(st.usable, st.transmits) == Unsendable(st.usable, st.transmits);
  }

  lemma HasObjectInFront(a: seq<Source>, b: seq<Source>, h: Handle)
    requires HasObject(a, h)
    ensures HasObject(a + b, h)
  {
    FindInFront(a, b, h);
  }

  lemma DataCallsSnoc(locals: seq<Source>, sent: seq<Transmit>, t: Transmit)
    requires Ready(locals, sent + [t])
    ensures Ready(locals, sent) && HasObject(locals, t.handle)
    ensures DataCalls(locals, sent + [t]) == DataCalls(locals, sent)
      + [UpdateData(FindLocal(locals, t.handle).value.obj.value, t.data)]
  {
    var all := sent + [t];
    assert all[|sent|] == t && forall i :: 0 <= i < |sent| ==> all[i] == sent[i];
    assert HasObject(locals, all[|sent|].handle);
    assert forall i :: 0 <= i < |sent| ==> HasObject(locals, all[i].handle);
  }
}

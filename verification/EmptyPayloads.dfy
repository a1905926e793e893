/** A run in which the last data kept of a source is not the last data handed over for it. */
module EmptyPayloads {
  import opened Wrappers
  import opened DOModel
  import opened DORuns
  import opened DOInvariants

  /** A federate with one source, offline: what was handed over before, and the data kept of it. */
  function OneSource(name: string, conn: string, kept: Payload, before: seq<Transmit>, uuid: Uuid): Run {
    Run(State(Offline, [SourceRegistration(name, conn, 1, kept)], [], [], {}, [], [], [], [], map[], [], map[], [],
      map[], 2, 1, uuid, {}), false, map[1 := (name, conn)], {}, [], [], before, [])
  }

  /** It joined and its source has an object. */
  function OneUsable(name: string, conn: string, kept: Payload, before: seq<Transmit>, uuid: Uuid): Run {
    var r := OneSource(name, conn, kept, before, uuid);
    r.(joined := true, st := r.st.(phase := InitFederate, usable := {1}, nextUuid := uuid + 1,
      locals := [Source(name, uuid, conn, 1, Some(1), kept)]))
  }

  lemma Created(name: string, conn: string, kept: Payload, before: seq<Transmit>, uuid: Uuid)
    ensures var r := OneSource(name, conn, kept, before, uuid);
      Next(r.(joined := true, st := r.st.(phase := InitFederate, buffered := r.st.persistent)), Process) ==
        r.(joined := true, st := r.st.(phase := InitFederate, nextUuid := uuid + 1,
          locals := [Source(name, uuid, conn, 1, None, kept)]))
  {
    var r := OneSource(name, conn, kept, before, uuid);
    var b := r.st.(phase := InitFederate, buffered := r.st.persistent);
    var q := SourceRegistration(name, conn, 1, kept);
    assert [q][..0] == [] && CreateSources(b, []).st == b;
    assert CreateSources(b, [q]).st == CreateSource(b, q).st;
  }

  lemma Entered(name: string, conn: string, kept: Payload, before: seq<Transmit>, uuid: Uuid)
    ensures var r := OneSource(name, conn, kept, before, uuid);
      && Enabled(r, EnterInitFederate) && Enabled(Next(r, EnterInitFederate), Join)
      && Next(Next(r, EnterInitFederate), Join) ==
        r.(joined := true, st := r.st.(phase := InitFederate, buffered := r.st.persistent))
  {
    var r := OneSource(name, conn, kept, before, uuid);
    assert [] + r.st.persistent == r.st.persistent;
  }

  lemma ObjectReserved(name: string, conn: string, kept: Payload, before: seq<Transmit>, uuid: Uuid)
    ensures var r := OneSource(name, conn, kept, before, uuid);
      var c := r.(joined := true, st := r.st.(phase := InitFederate, nextUuid := uuid + 1,
        locals := [Source(name, uuid, conn, 1, None, kept)]));
      Enabled(c, Reserved(uuid, 1)) && Next(c, Reserved(uuid, 1)) == OneUsable(name, conn, kept, before, uuid)
  {
    var ss := [Source(name, uuid, conn, 1, None, kept)];
    assert FindUuid(ss, uuid) == Some(0) && FindObject(ss, 1) == None;
    hide FindUuid, FindObject;
  }

  /** Joining, and reserving the object. */
  lemma SessionBegun(
      name: string, conn: string, kept: Payload, before: seq<Transmit>, uuid: Uuid, steps: seq<Step>)
    returns (more: seq<Step>)
    requires Reachable(OneSource(name, conn, kept, before, uuid), steps, {})
    ensures Reachable(OneUsable(name, conn, kept, before, uuid), more, {})
  {
    hide Next, Reachable, OneSource, OneUsable;
    var r := OneSource(name, conn, kept, before, uuid);
    Entered(name, conn, kept, before, uuid);
    Created(name, conn, kept, before, uuid);
    ObjectReserved(name, conn, kept, before, uuid);
    var b := r.(joined := true, st := r.st.(phase := InitFederate, buffered := r.st.persistent));
    assert Enabled(b, Process);
    hide Enabled;
    more := steps + [EnterInitFederate];
    ReachedMore(r, steps, {}, EnterInitFederate);
    ReachedMore(Next(r, EnterInitFederate), more, {}, Join);
    more := more + [Join];
    ReachedMore(b, more, {}, Process);
    more := more + [Process];
    ReachedMore(Next(b, Process), more, {}, Reserved(uuid, 1));
    more := more + [Reserved(uuid, 1)];
  }

  lemma OneSendable(t: Transmit)
    ensures Sendable({t.handle}, [t]) == [t]
  {
    assert [t][..0] == [] && Sendable({t.handle}, []) == [];
  }

  lemma OneHanded(st: State, s: Source, data: Payload)
    requires st.locals == [s] && s.handle == 1 && s.obj == Some(1) && st.usable == {1}
    ensures TransmitOne(st, Transmit(1, data)).st == st.(locals := [s.(last := data)])
  {
    assert FindLocal(st.locals, 1) == Some(s) && st.locals[0] in st.locals;
    hide FindLocal, LocalHandles;
    assert WithLast(st.locals, 1, data) == [s.(last := data)];
  }

  lemma OneTransmitted(st: State, s: Source, data: Payload)
    requires st.locals == [s] && s.handle == 1 && s.obj == Some(1) && st.usable == {1}
    requires st.transmits == [Transmit(1, data)] && st.buffered == [] && st.bufferedTargets == []
    ensures ProcessBuffers(st).st == st.(locals := [s.(last := data)], transmits := [])
    ensures Sendable(st.usable, st.transmits) == st.transmits
  {
    hide TransmitOne, Sendable;
    var ts, b := [Transmit(1, data)], st.(transmits := []);
    OneSendable(Transmit(1, data));
    OneHanded(b, s, data);
    assert ts[..0] == [];
    assert TransmitAll(b, []).st == b && TransmitAll(b, ts).st == TransmitOne(b, ts[0]).st;
  }

  lemma HandedOver(name: string, conn: string, kept: Payload, before: seq<Transmit>, uuid: Uuid, data: Payload)
    ensures var r := OneUsable(name, conn, kept, before, uuid);
      var a := Next(r, Submit(1, data));
      && Enabled(r, Submit(1, data)) && Enabled(a, Process) && Enabled(Next(a, Process), ResetAll)
      && Next(a, Process) == r.(submitted := [Transmit(1, data)], sent := [Transmit(1, data)],
        st := r.st.(locals := [Source(name, uuid, conn, 1, Some(1), data)]))
  {
    var r := OneUsable(name, conn, kept, before, uuid);
    var a := r.(submitted := [Transmit(1, data)], st := r.st.(transmits := [Transmit(1, data)]));
    assert Next(r, Submit(1, data)) == a;
    hide ProcessBuffers, Sendable;
    OneTransmitted(a.st, a.st.locals[0], data);
  }

  lemma Saved(name: string, conn: string, kept: Payload, before: seq<Transmit>, uuid: Uuid, data: Payload)
    ensures var r := OneUsable(name, conn, kept, before, uuid);
      Next(r.(submitted := [Transmit(1, data)], sent := [Transmit(1, data)],
          st := r.st.(locals := [Source(name, uuid, conn, 1, Some(1), data)])), ResetAll) ==
        OneSource(name, conn, if data != [] then data else kept, before + [Transmit(1, data)], uuid + 1)
  {
    var ss := [Source(name, uuid, conn, 1, Some(1), data)];
    assert FindLocal(ss, 1) == Some(ss[0]);
    var p := SourceRegistration(name, conn, 1, kept);
    assert SavedLast([p], ss, {1}) == [SavedOne(p, ss, {1})];
  }

  /** A session in which one payload is handed over for the source. */
  lemma OneSession(
      name: string, conn: string, kept: Payload, before: seq<Transmit>, uuid: Uuid, data: Payload, steps: seq<Step>)
    returns (more: seq<Step>)
    requires Reachable(OneSource(name, conn, kept, before, uuid), steps, {})
    ensures Reachable(
      OneSource(name, conn, if data != [] then data else kept, before + [Transmit(1, data)], uuid + 1), more, {})
  {
    hide *;
    var begun := SessionBegun(name, conn, kept, before, uuid, steps);
    var r := OneUsable(name, conn, kept, before, uuid);
    var a := Next(r, Submit(1, data));
    HandedOver(name, conn, kept, before, uuid, data);
    Saved(name, conn, kept, before, uuid, data);
    ReachedMore(r, begun, {}, Submit(1, data));
    ReachedMore(a, begun + [Submit(1, data)], {}, Process);
    ReachedMore(Next(a, Process), begun + [Submit(1, data)] + [Process], {}, ResetAll);
    more := begun + [Submit(1, data)] + [Process] + [ResetAll];
  }

  /** An empty payload handed over in a second session does not replace the one of the first: the run
      that registers a source, hands over a payload, is reset, hands over an empty one and is reset
      again keeps the first, which is not the last one handed over. */
  lemma NotKept(name: string, conn: string, data: Payload) returns (r: Run, steps: seq<Step>)
    requires data != []
    ensures Reachable(r, steps, {}) && r.before == [Transmit(1, data), Transmit(1, [])]
    ensures r.st.persistent == [SourceRegistration(name, conn, 1, data)]
    ensures r.st.persistent[0].last != LastOf(r.before, 1)
  {
    hide Reachable, Next, Enabled, LastOf, Start, OneSource;
    var begun := Registered(name, conn);
    var first := OneSession(name, conn, [], [], 0, data, begun);
    var before := [] + [Transmit(1, data)];
    steps := OneSession(name, conn, data, before, 1, [], first);
    r := OneSource(name, conn, data, before + [Transmit(1, [])], 2);
    TwoSessions(name, conn, data);
  }

  lemma Registered(name: string, conn: string) returns (steps: seq<Step>)
    ensures Reachable(OneSource(name, conn, [], [], 0), steps, {})
  {
    assert Reachable(Start({}), [], {}) && Enabled(Start({}), Register(name, conn));
    assert Next(Start({}), Register(name, conn)) == OneSource(name, conn, [], [], 0);
    hide *;
    ReachedMore(Start({}), [], {}, Register(name, conn));
    steps := [] + [Register(name, conn)];
  }

  lemma TwoSessions(name: string, conn: string, data: Payload)
    ensures var before := [] + [Transmit(1, data)];
      var r := OneSource(name, conn, data, before + [Transmit(1, [])], 2);
      && before + [Transmit(1, [])] == [Transmit(1, data), Transmit(1, [])]
      && r.before == [Transmit(1, data), Transmit(1, [])]
      && r.st.persistent == [SourceRegistration(name, conn, 1, data)]
      && LastOf([Transmit(1, data), Transmit(1, [])], 1) == []
  {
  }
}

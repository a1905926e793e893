/** Operation by operation, two services make the steps of the link of LateJoin. */
module DOLinkSteps {
  import opened Wrappers
  import opened DOModel
  import opened DORuns
  import opened DOInvariants
  import opened DORemotes
  import opened Packets
  import L = LateJoin
  import R = LateJoinRuns
  import opened DOLink

  // ----- The consumer -----

  lemma ReceivedFront(e: Event, events: seq<Event>)
    ensures ReceivedOf([e] + events) == (if e.Receive? then [e.data] else []) + ReceivedOf(events)
  {
    assert ([e] + events)[1..] == events;
  }

  lemma {:induction false} ReceivedConcat(a: seq<Event>, b: seq<Event>)
    ensures ReceivedOf(a + b) == ReceivedOf(a) + ReceivedOf(b)
  {
    if a == [] {
      assert a + b == b;
    } else {
      hide ReceivedOf;
      var e, rest := a[0], a[1..];
      assert a == [e] + rest && a + b == [e] + (rest + b);
      ReceivedConcat(rest, b);
      ReceivedFront(e, rest);
      ReceivedFront(e, rest + b);
    }
  }

  lemma StoreFrame(l: L.Link, data: Payload, nth: nat)
    ensures var r := L.Store(l, data, nth); r == l.(consumed := r.consumed, taken := r.taken)
  {
  }

  lemma TakeNameWithTarget(l: L.Link, c: State, data: Payload, nth: nat, obj: Object, name: string, conn: string)
    requires ConsumerAt(l, c, obj, name, conn) && l.target && !l.known
    ensures var m := L.NameUpdate(data, nth); var e, r := Reaction(c, m, obj, name, conn), L.TakeOne(l, m);
      ConsumerAt(r, e.st, obj, name, conn) && Follows(l, r, e, nth, obj)
  {
    hide HasLocalTarget, L.Store;
    StoreFrame(l.(known := true), data, nth);
    assert l.toProvider + [] == l.toProvider;
    var discovered := if conn in c.discoverers then [DiscoverSource(obj)] else [];
    var e := Reaction(c, L.NameUpdate(data, nth), obj, name, conn);
    var received := if data != [] then RunCallback(e.st, name, conn, data) else [];
    assert e.events == discovered + received && e.calls == [];
    assert ReceivedOf(discovered) == [] && ReceivedOf(received) == if data != [] then [data] else [];
    hide RunCallback;
    ReceivedConcat(discovered, received);
  }

  lemma TakeNameAgain(l: L.Link, c: State, data: Payload, nth: nat, obj: Object, name: string, conn: string)
    requires ConsumerAt(l, c, obj, name, conn) && l.known
    ensures var m := L.NameUpdate(data, nth); var e, r := Reaction(c, m, obj, name, conn), L.TakeOne(l, m);
      ConsumerAt(r, e.st, obj, name, conn) && Follows(l, r, e, nth, obj)
  {
    hide HasLocalTarget, L.Store;
    assert l.toProvider + [] == l.toProvider;
  }

  lemma TakeNameWithout(l: L.Link, c: State, data: Payload, nth: nat, obj: Object, name: string, conn: string)
    requires ConsumerAt(l, c, obj, name, conn) && !l.known && !l.target
    ensures var m := L.NameUpdate(data, nth); var e, r := Reaction(c, m, obj, name, conn), L.TakeOne(l, m);
      ConsumerAt(r, e.st, obj, name, conn) && Follows(l, r, e, nth, obj)
  {
    hide HasLocalTarget, L.Store, RunCallback;
    var discovered := if conn in c.discoverers then [DiscoverSource(obj)] else [];
    var e := Reaction(c, L.NameUpdate(data, nth), obj, name, conn);
    var r := L.TakeOne(l, L.NameUpdate(data, nth));
    assert ReceivedOf(discovered) == [];
    assert e.events == discovered && AsksOf(e.calls, obj) == [L.Unsubscription];
    assert r == l.(known := true, toProvider := l.toProvider + [L.Unsubscription]);
    assert ConsumerAt(r, e.st, obj, name, conn);
    hide Reaction, ReceivedOf, AsksOf, ConsumerAt;
  }

  lemma TakeValue(l: L.Link, c: State, data: Payload, nth: nat, obj: Object, name: string, conn: string)
    requires ConsumerAt(l, c, obj, name, conn)
    ensures var m := L.ValueUpdate(data, nth); var e, r := Reaction(c, m, obj, name, conn), L.TakeOne(l, m);
      ConsumerAt(r, e.st, obj, name, conn) && Follows(l, r, e, nth, obj)
  {
    hide HasLocalTarget, L.Store;
    StoreFrame(l, data, nth);
    assert l.toProvider + [] == l.toProvider;
  }

  /** Taking a message: the service comes to know what the link does, asks what the link asks, and
      its callback runs on the data the link stores. */
  lemma TakeIsReaction(l: L.Link, c: State, m: L.Message, obj: Object, name: string, conn: string)
    requires ConsumerAt(l, c, obj, name, conn)
    ensures ConsumerAt(L.TakeOne(l, m), Reaction(c, m, obj, name, conn).st, obj, name, conn)
    ensures !m.Discover? ==> Follows(l, L.TakeOne(l, m), Reaction(c, m, obj, name, conn), m.nth, obj)
    ensures m.Discover? ==>
      L.TakeOne(l, m) == l.(toProvider := l.toProvider + AsksOf(Reaction(c, m, obj, name, conn).calls, obj))
  {
    match m
    case Discover =>
    case NameUpdate(data, nth) =>
      hide Follows, ConsumerAt;
      if l.known {
        TakeNameAgain(l, c, data, nth, obj, name, conn);
      } else if l.target {
        TakeNameWithTarget(l, c, data, nth, obj, name, conn);
      } else {
        TakeNameWithout(l, c, data, nth, obj, name, conn);
      }
    case ValueUpdate(data, nth) =>
      hide Follows, ConsumerAt;
      TakeValue(l, c, data, nth, obj, name, conn);
  }

  lemma NamesFront(x: Remote, rs: seq<Remote>, obj: Object, wanted: string)
    requires Distinct([x] + rs)
    ensures Distinct(rs)
    ensures Names([x] + rs, obj, wanted) <==> if x.obj == obj then x.name == wanted else Names(rs, obj, wanted)
    ensures x.obj == obj ==> !Names(rs, obj, wanted)
  {
    var all := [x] + rs;
    assert forall i :: 0 <= i < |rs| ==> rs[i] == all[i + 1];
    assert all[0] == x && x in all;
    assert forall y :: y in rs ==> y in all && y.obj != x.obj;
  }

  lemma {:induction false} RequestsAskOnce(rs: seq<Remote>, wanted: string, obj: Object)
    requires Distinct(rs)
    ensures AsksOf(RequestsFor(rs, wanted), obj) == if Names(rs, obj, wanted) then [L.AskValue] else []
  {
    if rs != [] {
      assert rs == [rs[0]] + rs[1..];
      NamesFront(rs[0], rs[1..], obj, wanted);
      hide Names, Distinct;
      RequestsAskOnce(rs[1..], wanted, obj);
      var more := RequestsFor(rs[1..], wanted);
      assert RequestsFor(rs, wanted) == (if rs[0].name == wanted then [RequestData(rs[0].obj)] else []) + more;
      hide RequestsFor;
      AsksFront(RequestData(rs[0].obj), more, obj);
      assert [] + more == more;
    }
  }

  lemma AsksFront(call: RtiCall, calls: seq<RtiCall>, obj: Object)
    ensures AsksOf([call] + calls, obj) == AskOf(call, obj) + AsksOf(calls, obj)
  {
    assert ([call] + calls)[1..] == calls;
  }

  lemma CreateTargetAsks(c: State, r: TargetRegistration, obj: Object)
    requires Agree(c.remotes, c.remoteIndex)
    ensures AsksOf(CreateTarget(c, r).calls, obj) ==
      if obj in c.remoteIndex && c.remoteIndex[obj].name == r.name then [L.AskValue] else []
  {
    var requests := RequestsFor(c.remotes, r.name);
    assert ([Reserve(c.nextUuid)] + requests)[1..] == requests;
    assert AsksOf(CreateTarget(c, r).calls, obj) == [] + AsksOf(requests, obj);
    assert Names(c.remotes, obj, r.name) <==> obj in c.remoteIndex && c.remoteIndex[obj].name == r.name;
    hide AsksOf, RequestsFor, Names;
    RequestsAskOnce(c.remotes, r.name, obj);
  }

  lemma AddedTarget(ts: seq<Target>, t: Target, name: string, conn: string)
    ensures HasLocalTarget(ts + [t], name, conn) <==>
      HasLocalTarget(ts, name, conn) || (t.name == name && t.conn == conn)
  {
    if HasLocalTarget(ts, name, conn) {
      var i :| 0 <= i < |ts| && ts[i].name == name && ts[i].conn == conn;
      assert (ts + [t])[i] == ts[i];
    }
    assert (ts + [t])[|ts|] == t;
  }

  lemma TargetAddedFields(l: L.Link, r: TargetRegistration, name: string, conn: string)
    ensures TargetAdded(l, r, name, conn) ==
      l.(target := l.target || (r.name == name && r.conn == conn),
         toProvider := if l.known && r.name == name then l.toProvider + [L.AskValue] else l.toProvider)
  {
  }

  lemma CreateTargetKeepsAgreeing(l: L.Link, c: State, r: TargetRegistration, obj: Object, name: string, conn: string)
    requires ConsumerAt(l, c, obj, name, conn)
    ensures ConsumerAt(l.(target := l.target || (r.name == name && r.conn == conn)), CreateTarget(c, r).st, obj,
      name, conn)
  {
    AddedTarget(c.localTargets, Target(r.name, c.nextUuid, r.conn, r.handle), name, conn);
    hide HasLocalTarget, RequestsFor;
  }

  /** Registering a target makes the link's step and the same request. */
  lemma CreateTargetIsStep(l: L.Link, c: State, r: TargetRegistration, obj: Object, name: string, conn: string)
    requires ConsumerAt(l, c, obj, name, conn) && Agree(c.remotes, c.remoteIndex)
    ensures var e, n := CreateTarget(c, r), TargetAdded(l, r, name, conn);
      && ConsumerAt(n, e.st, obj, name, conn) && Agree(e.st.remotes, e.st.remoteIndex)
      && n == l.(target := n.target, toProvider := l.toProvider + AsksOf(e.calls, obj))
  {
    assert CreateTarget(c, r).st.remotes == c.remotes && CreateTarget(c, r).st.remoteIndex == c.remoteIndex;
    TargetAddedFields(l, r, name, conn);
    assert l.toProvider + [] == l.toProvider;
    hide HasLocalTarget, AsksOf, RequestsFor, Agree, CreateTarget, TargetAdded;
    CreateTargetAsks(c, r, obj);
    CreateTargetKeepsAgreeing(l, c, r, obj, name, conn);
  }

  // ----- The registration and requests -----

  lemma SaidTwo(a: RtiCall, b: RtiCall, obj: Object, name: string, conn: string)
    ensures SaidBy([a], obj, name, conn) == SaidOf(a, obj, name, conn)
    ensures SaidBy([a, b], obj, name, conn) == SaidOf(a, obj, name, conn) + SaidOf(b, obj, name, conn)
    ensures SaidBy([], obj, name, conn) == []
  {
    assert [a][..0] == [] && [a, b][..1] == [a];
    assert SaidBy([], obj, name, conn) == [];
    assert [] + SaidOf(a, obj, name, conn) == SaidOf(a, obj, name, conn);
  }

  lemma ReservedEffect(st: State, i: nat, obj: Object)
    requires DistinctLocals(st.locals) && i < |st.locals|
    ensures var s := st.locals[i];
      SourceReserved(st, s.uuid, obj) ==
        Effect(st.(locals := st.locals[i := s.(obj := Some(obj))], usable := st.usable + {s.handle}),
               [RegisterObject(obj, s.uuid), UpdateName(obj, s.name, s.conn, s.last)], [])
  {
    assert FindUuid(st.locals, st.locals[i].uuid) == Some(i);
  }

  lemma ReservationAgrees(l: L.Link, st: State, sent: seq<Transmit>, i: nat, obj: Object)
    requires DistinctLocals(st.locals) && i < |st.locals|
    requires ProviderAt(l, st, sent, st.locals[i].handle, obj)
    ensures ProviderAt(L.Next(l.(registered := false), L.Step.RegisterObject),
      SourceReserved(st, st.locals[i].uuid, obj).st, sent, st.locals[i].handle, obj)
  {
    var s := st.locals[i];
    ReservedEffect(st, i, obj);
    var t := SourceReserved(st, s.uuid, obj).st;
    var n := L.Next(l.(registered := false), L.Step.RegisterObject);
    assert n == l.(registered := true, toConsumer := n.toConsumer);
    hide SourceReserved, L.Next, Of;
    forall x | x in t.locals ensures SourceAt(n, x, s.handle, obj) {
      var j :| 0 <= j < |t.locals| && t.locals[j] == x;
      assert st.locals[j] in st.locals && SourceAt(l, st.locals[j], s.handle, obj);
    }
  }

  lemma ReservationSays(l: L.Link, s: Source, obj: Object)
    requires s.last == L.Last(l)
    ensures SaidBy([RegisterObject(obj, s.uuid), UpdateName(obj, s.name, s.conn, s.last)], obj, s.name, s.conn)
      == Says([L.Discover, L.NameMessage(l)])
  {
    SaidTwo(RegisterObject(obj, s.uuid), UpdateName(obj, s.name, s.conn, s.last), obj, s.name, s.conn);
    hide SaidBy, L.Last;
    assert Says([L.Discover, L.NameMessage(l)]) == [SaidObject, SaidName(s.last)];
  }

  /** A reservation completed for the source: the link registers its object and the service says
      what the link says. */
  lemma ReservationIsStep(l: L.Link, st: State, sent: seq<Transmit>, i: nat, obj: Object)
    requires DistinctLocals(st.locals) && i < |st.locals|
    requires ProviderAt(l, st, sent, st.locals[i].handle, obj) && !l.registered
    ensures var s := st.locals[i];
      var e := SourceReserved(st, s.uuid, obj);
      && ProviderAt(L.Next(l, L.Step.RegisterObject), e.st, sent, s.handle, obj)
      && SaidBy(e.calls, obj, s.name, s.conn) == Says([L.Discover, L.NameMessage(l)])
  {
    var s := st.locals[i];
    assert s in st.locals && SourceAt(l, s, s.handle, obj);
    assert l.(registered := false) == l;
    hide SourceReserved, L.Next, ProviderAt, SaidBy, DistinctLocals, Says, L.Last;
    ReservationAgrees(l, st, sent, i, obj);
    ReservedEffect(st, i, obj);
    ReservationSays(l, s, obj);
  }

  lemma ObjectFound(l: L.Link, st: State, sent: seq<Transmit>, s: Source, obj: Object)
    requires ProviderAt(l, st, sent, s.handle, obj) && s in st.locals && l.registered && DistinctLocals(st.locals)
    ensures FindObject(st.locals, obj) == Some(s) && s.last == L.Last(l)
  {
    hide Of, L.Last;
    assert SourceAt(l, s, s.handle, obj);
    var f := FindObject(st.locals, obj);
    assert f.Some? && SourceAt(l, f.value, s.handle, obj);
  }

  lemma AnswerSays(l: L.Link, s: Source, obj: Object, nameRequested: bool)
    requires s.last == L.Last(l)
    ensures SaidBy(if nameRequested then [UpdateName(obj, s.name, s.conn, s.last)]
      else if s.last != [] then [UpdateData(obj, s.last)] else [], obj, s.name, s.conn)
      == Says(if nameRequested then [L.NameMessage(l)] else L.ValueMessages(l))
  {
    SaidTwo(UpdateName(obj, s.name, s.conn, s.last), UpdateName(obj, s.name, s.conn, s.last), obj, s.name, s.conn);
    SaidTwo(UpdateData(obj, s.last), UpdateData(obj, s.last), obj, s.name, s.conn);
    hide SaidBy, L.Last;
  }

  /** A request to the provider: the service says what the link answers. */
  lemma ProvideIsAnswer(l: L.Link, st: State, sent: seq<Transmit>, s: Source, obj: Object, nameRequested: bool)
    requires ProviderAt(l, st, sent, s.handle, obj) && s in st.locals && l.registered && DistinctLocals(st.locals)
    ensures var e := ProvideSource(st, obj, nameRequested);
      && e.st == st
      && SaidBy(e.calls, obj, s.name, s.conn) == Says(if nameRequested then [L.NameMessage(l)] else L.ValueMessages(l))
  {
    hide SaidBy, Says, L.NameMessage, L.ValueMessages, L.Last, FindObject, ProviderAt, DistinctLocals;
    ObjectFound(l, st, sent, s, obj);
    AnswerSays(l, s, obj, nameRequested);
  }

  // ----- Processing the buffers -----

  lemma {:induction false} LastOfIsLast(ts: seq<Transmit>, h: Handle)
    ensures LastOf(ts, h) == if Of(ts, h) == [] then [] else Of(ts, h)[|Of(ts, h)| - 1]
  {
    if ts != [] { LastOfIsLast(ts[..|ts| - 1], h); }
  }

  lemma HandedOverLink(l: L.Link, leak: bool)
    ensures var n := L.HandOverAll(l, leak, l.buffered).(buffered := []);
      && n == l.(handed := l.handed + l.buffered, buffered := [], toConsumer := n.toConsumer)
      && L.Last(n) == if l.buffered == [] then L.Last(l) else l.buffered[|l.buffered| - 1]
  {
    R.HandsOver(l, leak, l.buffered);
    hide L.HandOverAll;
  }

  lemma HandOverOneFields(l: L.Link, leak: bool, data: Payload)
    ensures L.HandOverOne(l, leak, data) == l.(handed := l.handed + [data],
      toConsumer := if l.joined && (l.subscribed || leak) then l.toConsumer + [L.ValueUpdate(data, |l.handed| + 1)]
        else l.toConsumer)
  {
  }

  lemma {:induction false} HandOverSays(l: L.Link, leak: bool, ds: seq<Payload>) returns (ms: seq<L.Message>)
    ensures L.HandOverAll(l, leak, ds).toConsumer == if l.joined && (l.subscribed || leak) then l.toConsumer + ms
      else l.toConsumer
    ensures Says(ms) == Values(ds)
  {
    if ds == [] {
      ms := [];
      assert l.toConsumer + [] == l.toConsumer;
    } else {
      var n := |ds| - 1;
      var k := L.HandOverAll(l, leak, ds[..n]);
      assert L.HandOverAll(l, leak, ds) == L.HandOverOne(k, leak, ds[n]);
      hide L.HandOverAll, L.HandOverOne;
      var front := HandOverSays(l, leak, ds[..n]);
      HandOverOneFields(k, leak, ds[n]);
      R.HandsOver(l, leak, ds[..n]);
      ms := front + [L.ValueUpdate(ds[n], |k.handed| + 1)];
      assert Values(ds) == Values(ds[..n]) + [SaidValue(ds[n])];
      assert l.toConsumer + ms == (l.toConsumer + front) + [ms[n]];
    }
  }

  /** The source of the handle after processing holds what the link holds after handing over. */
  lemma ProcessedSourceAt(l: L.Link, p: Run, s: Source, h: Handle, obj: Object, n: L.Link)
    requires Partition(p) && SubView(p) && ProviderAt(l, p.st, p.sent, h, obj) && s in ProcessedLocals(p.st)
    requires n.registered == l.registered
    requires L.Last(n) == if !l.registered || l.buffered == [] then L.Last(l) else l.buffered[|l.buffered| - 1]
    ensures SourceAt(n, s, h, obj)
  {
    var now := Sendable(p.st.usable, p.st.transmits);
    hide Partition, SubView, ProcessedLocals, CreatedSources, Sendable, LastOf, Of, L.Last;
    var x := ProcessedMember(p.st, s);
    OfSplit(p.st.usable, p.st.transmits, h);
    LastOfIsLast(now, h);
    if x !in p.st.locals {
      var q := CreatedMember(p.st.buffered, p.st.nextUuid + |p.st.bufferedTargets|, x);
      CreatedNotUsable(p, q);
    } else {
      assert SourceAt(l, x, h, obj);
    }
  }

  lemma CreatedNotUsable(p: Run, q: SourceRegistration)
    requires Partition(p) && SubView(p) && q in p.st.buffered
    ensures q.handle !in p.st.usable
  {
    assert q.handle in RegisteredHandles(p.st.buffered);
    hide RegisteredHandles, LocalHandles, DistinctLocals, DistinctRegistrations;
  }

  lemma ProcessedAgrees(l: L.Link, n: L.Link, p: Run, h: Handle, obj: Object)
    requires Partition(p) && SubView(p) && ProviderAt(l, p.st, p.sent, h, obj)
    requires n.registered == l.registered
    requires n.buffered == if l.registered then [] else l.buffered
    requires n.handed == if l.registered then l.handed + l.buffered else l.handed
    requires L.Last(n) == if !l.registered || l.buffered == [] then L.Last(l) else l.buffered[|l.buffered| - 1]
    ensures ProviderAt(n, p.st.(buffered := [], locals := ProcessedLocals(p.st),
      transmits := Unsendable(p.st.usable, p.st.transmits)),
                       p.sent + Sendable(p.st.usable, p.st.transmits), h, obj)
  {
    hide Partition, SubView, ProcessedLocals, Sendable, Unsendable, Of, L.Last, SourceAt;
    forall s | s in ProcessedLocals(p.st) ensures SourceAt(n, s, h, obj) {
      hide ProviderAt;
      ProcessedSourceAt(l, p, s, h, obj, n);
    }
    OfSplit(p.st.usable, p.st.transmits, h);
    OfConcat(p.sent, Sendable(p.st.usable, p.st.transmits), h);
    assert Of(p.sent, h) + [] == Of(p.sent, h);
  }

  lemma ProviderAtFrame(l: L.Link, a: State, b: State, sent: seq<Transmit>, h: Handle, obj: Object)
    requires ProviderAt(l, a, sent, h, obj)
    requires a.usable == b.usable && a.transmits == b.transmits && a.locals == b.locals && a.buffered == b.buffered
    ensures ProviderAt(l, b, sent, h, obj)
  {
  }

  /** Processing the buffers: the link hands over what is buffered once the source is usable. */
  lemma ProcessIsHandOver(l: L.Link, p: Run, h: Handle, obj: Object, leak: bool)
    requires Partition(p) && SubView(p) && ProviderAt(l, p.st, p.sent, h, obj)
    ensures var n := if l.registered then L.Next(l, L.HandOver(leak)) else l;
      ProviderAt(n, Next(p, Process).st, Next(p, Process).sent, h, obj)
  {
    var n := if l.registered then L.Next(l, L.HandOver(leak)) else l;
    HandedOverLink(l, leak);
    assert l.registered ==> n == l.(handed := l.handed + l.buffered, buffered := [], toConsumer := n.toConsumer);
    assert L.Last(n) == if !l.registered || l.buffered == [] then L.Last(l) else l.buffered[|l.buffered| - 1];
    hide Next, L.Next, Partition, SubView, ProcessedLocals, Sendable, Unsendable, HasObject, L.HandOverAll, L.Last,
      ProviderAt;
    ProcessedAgrees(l, n, p, h, obj);
    Processed(p);
    ProviderAtFrame(n, p.st.(buffered := [], locals := ProcessedLocals(p.st),
      transmits := Unsendable(p.st.usable, p.st.transmits)),
      Next(p, Process).st, p.sent + Sendable(p.st.usable, p.st.transmits), h, obj);
  }

  lemma SaidBySnoc(calls: seq<RtiCall>, c: RtiCall, obj: Object, name: string, conn: string)
    ensures SaidBy(calls + [c], obj, name, conn) == SaidBy(calls, obj, name, conn) + SaidOf(c, obj, name, conn)
  {
    assert (calls + [c])[..|calls|] == calls;
  }

  lemma ValuesSnoc(ds: seq<Payload>, d: Payload)
    ensures Values(ds + [d]) == Values(ds) + [SaidValue(d)] && Values(ds + []) == Values(ds) + []
  {
  }

  /** The data call of a source says its payload about the source's object, and nothing about others. */
  lemma DataCallSays(locals: seq<Source>, t: Transmit, h: Handle, obj: Object, name: string, conn: string)
    requires HasObject(locals, t.handle) && ObjectOf(locals, t.handle, h, obj)
    ensures SaidOf(DataCall(locals, t), obj, name, conn) ==
      if t.handle == h then [SaidValue(t.data)] else []
  {
    hide FindLocal, LocalHandles;
  }

  lemma NoDataCalls(locals: seq<Source>, h: Handle, obj: Object, name: string, conn: string)
    requires Ready(locals, [])
    ensures SaidBy(DataCalls(locals, []), obj, name, conn) == Values(Of([], h))
  {
    assert DataCalls(locals, []) == [];
  }

  /** The data calls say about an object the payloads of its source, in order. */
  lemma {:induction false} DataCallsSay(locals: seq<Source>, sent: seq<Transmit>, h: Handle, obj: Object,
      name: string, conn: string)
    requires Ready(locals, sent) && forall t :: t in sent ==> ObjectOf(locals, t.handle, h, obj)
    ensures SaidBy(DataCalls(locals, sent), obj, name, conn) == Values(Of(sent, h))
  {
    hide Ready, HasObject, SaidBy, SaidOf, Of, DataCalls, FindLocal, ObjectOf, Values;
    if sent == [] {
      NoDataCalls(locals, h, obj, name, conn);
    } else {
      var front, t := sent[..|sent| - 1], sent[|sent| - 1];
      assert sent == front + [t] && ObjectOf(locals, t.handle, h, obj);
      DataCallsSnoc(locals, front, t);
      DataCallsSay(locals, front, h, obj, name, conn);
      DataCallSays(locals, t, h, obj, name, conn);
      SaidBySnoc(DataCalls(locals, front), DataCall(locals, t), obj, name, conn);
      OfSnoc(front, t, h);
      ValuesSnoc(Of(front, h), t.data);
    }
  }

  lemma {:induction false} SaidConcat(a: seq<RtiCall>, b: seq<RtiCall>, obj: Object, name: string, conn: string)
    ensures SaidBy(a + b, obj, name, conn) == SaidBy(a, obj, name, conn) + SaidBy(b, obj, name, conn)
  {
    if b == [] {
      assert a + b == a;
    } else {
      hide SaidOf, SaidBy;
      var front, c := b[..|b| - 1], b[|b| - 1];
      assert b == front + [c] && a + b == (a + front) + [c];
      SaidConcat(a, front, obj, name, conn);
      SaidBySnoc(a + front, c, obj, name, conn);
      SaidBySnoc(front, c, obj, name, conn);
    }
  }

  lemma {:induction false} NothingSaid(calls: seq<RtiCall>, obj: Object, name: string, conn: string)
    requires forall c :: c in calls ==> c.Reserve? || c.RequestData?
    ensures SaidBy(calls, obj, name, conn) == []
  {
    if calls != [] { NothingSaid(calls[..|calls| - 1], obj, name, conn); }
  }

  lemma SentObjects(l: L.Link, p: Run, h: Handle, obj: Object)
    requires Partition(p) && SubView(p) && ProviderAt(l, p.st, p.sent, h, obj)
    ensures forall t :: t in Sendable(p.st.usable, p.st.transmits) ==> ObjectOf(p.st.locals, t.handle, h, obj)
  {
    SendableMembers(p.st.usable, p.st.transmits);
    UsableHaveObjects(p);
    hide Partition, SubView, Sendable, LocalHandles;
    forall t | t in Sendable(p.st.usable, p.st.transmits) ensures ObjectOf(p.st.locals, t.handle, h, obj) {
      assert HasObject(p.st.locals, t.handle);
      var s := FindLocal(p.st.locals, t.handle).value;
      assert SourceAt(l, s, h, obj);
    }
  }

  /** Processing the buffers says about the object exactly what the link hands over. */
  lemma ProcessSays(l: L.Link, p: Run, h: Handle, obj: Object, name: string, conn: string)
    requires Partition(p) && SubView(p) && ProviderAt(l, p.st, p.sent, h, obj)
    ensures SaidBy(ProcessBuffers(p.st).calls, obj, name, conn) == Values(if l.registered then l.buffered else [])
  {
    UsableHaveObjects(p);
    SentObjects(l, p, h, obj);
    OfSplit(p.st.usable, p.st.transmits, h);
    var sent := Sendable(p.st.usable, p.st.transmits);
    assert Of(sent, h) == if l.registered then l.buffered else [];
    hide Partition, SubView, ProviderAt, ProcessBuffers, HasObject, Sendable, Ready, SaidBy, Of, ObjectOf;
    var prelude := ProcessCalls(p.st);
    NothingSaid(prelude, obj, name, conn);
    SaidConcat(prelude, DataCalls(p.st.locals, sent), obj, name, conn);
    DataCallsSay(p.st.locals, sent, h, obj, name, conn);
    assert [] + Values(Of(sent, h)) == Values(Of(sent, h));
  }

  /** A value set at the provider is submitted, or not, as the link buffers it. */
  lemma SetIsSubmit(l: L.Link, p: Run, h: Handle, obj: Object, v: Payload)
    requires ProviderAt(l, p.st, p.sent, h, obj)
    ensures var q := if l.onChange && v == l.provided then p else Next(p, Submit(h, DataPacket(v)));
      ProviderAt(L.Next(l, L.SetData(v)), q.st, q.sent, h, obj)
  {
    var t := Transmit(h, DataPacket(v));
    OfSnoc(p.st.transmits, t, h);
    hide Of;
    var n := L.Next(l, L.SetData(v));
    assert L.Last(n) == L.Last(l);
    hide L.Last;
    assert forall s :: SourceAt(l, s, h, obj) ==> SourceAt(n, s, h, obj);
  }

  lemma SubmitOtherKeeps(l: L.Link, p: Run, other: Handle, data: Payload, h: Handle, obj: Object)
    requires ProviderAt(l, p.st, p.sent, h, obj) && other != h
    ensures ProviderAt(l, Next(p, Submit(other, data)).st, Next(p, Submit(other, data)).sent, h, obj)
  {
    var t := Transmit(other, data);
    OfSnoc(p.st.transmits, t, h);
    assert Of(p.st.transmits, h) + [] == Of(p.st.transmits, h);
    var n := Next(p, Submit(other, data));
    assert n.st == p.st.(transmits := p.st.transmits + [t]) && n.sent == p.sent;
    hide Next, Of, SourceAt;
  }

  lemma RegisterOtherKeeps(l: L.Link, p: Run, name: string, conn: string, h: Handle, obj: Object)
    requires ProviderAt(l, p.st, p.sent, h, obj) && Identified(p) && h in p.issued
    ensures ProviderAt(l, Next(p, Register(name, conn)).st, Next(p, Register(name, conn)).sent, h, obj)
  {
    var n := Next(p, Register(name, conn));
    var q := SourceRegistration(name, conn, p.st.nextSource, []);
    assert n.st.locals == p.st.locals && n.st.transmits == p.st.transmits && n.st.usable == p.st.usable
      && n.sent == p.sent;
    assert n.st.buffered == p.st.buffered || n.st.buffered == p.st.buffered + [q];
    assert q.handle != h;
    hide Next, Identified, Of, SourceAt;
  }

  lemma UnregisterOtherKeeps(l: L.Link, p: Run, other: Handle, h: Handle, obj: Object)
    requires ProviderAt(l, p.st, p.sent, h, obj) && Partition(p) && other != h
    ensures ProviderAt(l, Next(p, Unregister(other)).st, Next(p, Unregister(other)).sent, h, obj)
  {
    hide Next, Partition, Of, SourceAt;
    Unregistered(p, other);
    UnregisterOther(p, other, h);
  }

  /** Any other step of the provider's service leaves the link alone. */
  lemma OtherStepsKeep(l: L.Link, p: Run, step: Step, h: Handle, obj: Object)
    requires Partition(p) && Identified(p) && ProviderAt(l, p.st, p.sent, h, obj)
    requires !ForSources(step) || step.GoOnline? || (step.Submit? && step.handle != h)
      || (step.Unregister? && step.handle != h)
      || (step.Register? && h in p.issued)
    ensures ProviderAt(l, Next(p, step).st, Next(p, step).sent, h, obj)
  {
    if step.Unregister? {
      hide Next, Identified, Partition, ProviderAt;
      UnregisterOtherKeeps(l, p, step.handle, h, obj);
    } else if step.Submit? {
      hide Next, Identified, Partition, ProviderAt;
      SubmitOtherKeeps(l, p, step.handle, step.data, h, obj);
    } else if step.Register? {
      hide Next, Identified, Partition, ProviderAt;
      RegisterOtherKeeps(l, p, step.name, step.conn, h, obj);
    } else {
      hide Identified, Partition, ProviderAt, Sendable;
      if !ForSources(step) { OthersKeepSources(p.st, step); hide Operation; }
      ProviderAtFrame(l, p.st, Next(p, step).st, p.sent, h, obj);
    }
  }

  lemma UnregisterOther(p: Run, other: Handle, h: Handle)
    requires other != h
    ensures h in Next(p, Unregister(other)).st.usable <==> h in p.st.usable
  {
    hide FindLocal, LocalHandles, RegisteredHandles, WithoutSource, WithoutRegistration, Sendable;
  }
}

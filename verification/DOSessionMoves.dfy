/** Every move of a session keeps its two services sound and is what the link of LateJoin does:
    one of its steps, several, or none. */
module DOSessionMoves {
  import opened Wrappers
  import opened DOModel
  import opened DORuns
  import opened DOInvariants
  import opened DORemotes
  import opened DOTargets
  import opened Packets
  import opened DOLink
  import opened DOLinkSteps
  import opened DOSessions
  import L = LateJoin
  import R = LateJoinRuns

  // ----- Soundness is kept -----

  lemma OthersKeepTargets(st: State, step: Step)
    requires !step.Process? && !step.ResetAll?
    ensures var t := Operation(st, step).st; t.localTargets == st.localTargets && t.callbacks == st.callbacks
  {
    hide FindLocal, LocalHandles, RegisteredHandles, WithoutSource, WithoutRegistration, FindUuid, FindObject,
      FindRemote, HasLocalTarget, RunCallback;
  }

  lemma TargetCreated(st: State, r: TargetRegistration)
    requires Targets(st)
    ensures Targets(CreateTarget(st, r).st)
  {
    hide HasLocalTarget, RequestsFor;
    var t := CreateTarget(st, r).st;
    forall name, conn ensures HasLocalTarget(t.localTargets, name, conn) <==> (conn, name) in t.callbacks {
      AddedTarget(st.localTargets, Target(r.name, st.nextUuid, r.conn, r.handle), name, conn);
    }
  }

  lemma {:induction false} TargetsCreated(st: State, rs: seq<TargetRegistration>)
    requires Targets(st)
    ensures Targets(CreateTargets(st, rs).st)
  {
    if rs != [] {
      hide Targets, CreateTarget;
      TargetsCreated(st, rs[..|rs| - 1]);
      TargetCreated(CreateTargets(st, rs[..|rs| - 1]).st, rs[|rs| - 1]);
    }
  }

  /** Processing the buffers creates the buffered targets and does nothing else to targets and
      remote sources. */
  lemma ProcessedTargets(r: Run)
    requires Invariant(r)
    ensures var a, t := CreateTargets(r.st, r.st.bufferedTargets).st, ProcessBuffers(r.st).st;
      && t.localTargets == a.localTargets && t.callbacks == a.callbacks
      && t.remotes == a.remotes == r.st.remotes && t.remoteIndex == a.remoteIndex == r.st.remoteIndex
  {
    UsableHaveObjects(r);
    hide *;
    ProcessSummary(r.st);
    CreateTargetsSummary(r.st, r.st.bufferedTargets);
  }

  lemma TargetsStep(r: Run, step: Step)
    requires Invariant(r) && Targets(r.st) && !step.ResetAll?
    ensures Targets(Next(r, step).st)
  {
    if step.Process? {
      hide Invariant, CreateTargets, ProcessBuffers;
      ProcessedTargets(r);
      TargetsCreated(r.st, r.st.bufferedTargets);
    } else {
      hide Invariant, Operation;
      OthersKeepTargets(r.st, step);
    }
  }

  lemma {:induction false} TargetsReached(r: Run, steps: seq<Step>, discoverers: set<string>)
    requires DORuns.Reachable(r, steps, discoverers)
    ensures Targets(r.st)
    decreases |steps|
  {
    if steps == [] {
    } else {
      var n := |steps| - 1;
      var q :| DORuns.Reachable(q, steps[..n], discoverers) && Enabled(q, steps[n]) && r == Next(q, steps[n]);
      TargetsReached(q, steps[..n], discoverers);
      if steps[n].ResetAll? {
        assert r.st.localTargets == [] && r.st.callbacks == map[];
      } else {
        hide Targets, Next, Enabled;
        InvariantReached(q, steps[..n], discoverers);
        TargetsStep(q, steps[n]);
      }
    }
  }

  /** The registration of the source keeps its name and its last data within a session. */
  ghost predicate Keeps(e: Ends, r: Run) {
    && e.h in r.issued && r.issued[e.h] == (e.name, e.conn)
    && forall q :: q in r.st.persistent && q.handle == e.h ==> q.last == e.initial
  }

  lemma KeepsStep(e: Ends, r: Run, step: Step)
    requires Invariant(r) && Keeps(e, r) && !step.ResetAll?
    ensures Keeps(e, Next(r, step))
  {
    var n := Next(r, step);
    assert Partition(r) && Identified(r) && SubView(r);
    if step.Register? {
      assert n.st.persistent == r.st.persistent + [SourceRegistration(step.name, step.conn, r.st.nextSource, [])];
      assert n.issued == r.issued[r.st.nextSource := (step.name, step.conn)] && r.st.nextSource != e.h;
      hide *;
    } else if step.Unregister? {
      hide *;
      Unregistered(r, step.handle);
    } else if step.Process? {
      hide *;
      Processed(r);
    } else {
      assert n.issued == r.issued;
      if !ForSources(step) { OthersKeepSources(r.st, step); hide Operation; }
      hide Partition, Identified, SubView, Invariant, FindUuid;
    }
  }

  lemma UsableJoined(r: Run, h: Handle) returns (i: nat)
    requires Invariant(r) && h in r.st.usable
    ensures r.joined && i < |r.st.locals| && r.st.locals[i].handle == h && r.st.locals[i].obj.Some?
  {
    assert Partition(r) && SubView(r);
    hide Invariant, DistinctLocals, DistinctRegistrations;
    NoHandles(r.st.buffered, r.st.locals);
    var x :| x in r.st.locals && x.handle == h;
    i :| 0 <= i < |r.st.locals| && r.st.locals[i] == x;
  }

  lemma ProviderSound(e: Ends, s: Session, step: Step)
    requires Sound(e, s) && Enabled(s.p, step) && !step.ResetAll?
    ensures Sound(e, s.(p := Next(s.p, step)))
  {
    hide Invariant, Remotes, Targets, Next, Enabled;
    InvariantStep(s.p, step);
    KeepsStep(e, s.p, step);
  }

  /** Only an update of the object itself or of a source of another name adds a remote source. */
  lemma AloneStep(e: Ends, r: Run, step: Step)
    requires Invariant(r) && Alone(e, r.st) && !step.ResetAll?
    requires step.SourceUpdate? ==> step.obj == e.obj || step.attrs.identity != Some((e.name, e.conn))
    ensures Alone(e, Next(r, step).st)
  {
    if step.Process? {
      hide Invariant, ProcessBuffers, CreateTargets;
      ProcessedTargets(r);
    } else {
      hide Invariant;
      OthersStayAlone(e, r.st, step);
    }
  }

  lemma OthersStayAlone(e: Ends, st: State, step: Step)
    requires Alone(e, st) && !step.Process? && !step.ResetAll?
    requires step.SourceUpdate? ==> step.obj == e.obj || step.attrs.identity != Some((e.name, e.conn))
    ensures Alone(e, Operation(st, step).st)
  {
    hide FindLocal, LocalHandles, RegisteredHandles, WithoutSource, WithoutRegistration, FindUuid, FindObject,
      FindRemote, HasLocalTarget, RunCallback;
  }

  lemma ConsumerSound(e: Ends, s: Session, step: Step)
    requires Sound(e, s) && Enabled(s.c, step) && !step.ResetAll?
    requires step.SourceUpdate? ==> step.obj == e.obj || step.attrs.identity != Some((e.name, e.conn))
    ensures Sound(e, s.(c := Next(s.c, step)))
  {
    hide Invariant, Remotes, Targets, Recorded, Lined, Alone, Next, Enabled;
    InvariantStep(s.c, step);
    RemotesStep(s.c, step);
    TargetsStep(s.c, step);
    RecordedStep(s.c, step);
    LinedStep(s.c, step);
    AloneStep(e, s.c, step);
  }

  /** Soundness speaks of the two services only. */
  lemma SoundFrame(e: Ends, s: Session, t: Session)
    requires Sound(e, s) && s.p == t.p && s.c == t.c
    ensures Sound(e, t)
  {
    hide Invariant, Remotes, Targets, Recorded, Lined, Alone;
  }

  // ----- Each move is what the link does -----

  lemma SaysConcat(a: seq<L.Message>, b: seq<L.Message>)
    ensures Says(a + b) == Says(a) + Says(b)
  {
  }

  lemma TransferSeen(e: Ends, s: Session, l: L.Link, leak: bool, ms: seq<L.Message>)
    requires SeenAs(e, s, l)
    ensures SeenAs(e, Transfer(s, leak, Says(ms)), L.Sent(l, leak, ms))
  {
    SaysConcat(l.toConsumer, ms);
    hide Says, TookAt, Of, L.Last, HasLocalTarget, SourceAt;
    assert ConsumerAt(L.Sent(l, leak, ms), s.c.st, e.obj, e.name, e.conn);
    ProviderFrame(l, L.Sent(l, leak, ms), s.p.st, s.p.sent, e.h, e.obj);
    hide ConsumerAt, ProviderAt;
  }

  /** The provider's side of a link is its registration, what it buffers and hands over, and what
      it started with. */
  lemma ProviderFrame(k: L.Link, l: L.Link, st: State, sent: seq<Transmit>, h: Handle, obj: Object)
    requires ProviderAt(k, st, sent, h, obj)
    requires l.registered == k.registered && l.buffered == k.buffered && l.handed == k.handed && l.initial == k.initial
    ensures ProviderAt(l, st, sent, h, obj)
  {
    hide Of;
    assert L.Last(l) == L.Last(k);
    hide L.Last;
    assert forall s :: SourceAt(k, s, h, obj) ==> SourceAt(l, s, h, obj);
  }

  lemma SetSeen(e: Ends, s: Session, l: L.Link, v: Payload)
    requires SeenAs(e, s, l)
    ensures SeenAs(e, WithValue(e, s, v), L.Next(l, L.SetData(v)))
  {
    SetIsSubmit(l, s.p, e.h, e.obj, v);
    hide ProviderAt, TookAt, Next, DataPacket, HasLocalTarget, Says;
  }

  /** A provider whose service is where it was is seen as before. */
  lemma SeenFrame(e: Ends, s: Session, p: Run, l: L.Link)
    requires SeenAs(e, s, l) && p.st == s.p.st && p.sent == s.p.sent
    ensures SeenAs(e, s.(p := p), l)
  {
    hide ConsumerAt, ProviderAt, TookAt, Says;
  }

  /** What the provider's service says when asked. */
  lemma ProvidedSays(e: Ends, s: Session, l: L.Link, nameRequested: bool)
    requires Sound(e, s) && SeenAs(e, s, l) && l.registered
    ensures s.p.joined && Next(s.p, Provide(e.obj, nameRequested)).st == s.p.st
      && Next(s.p, Provide(e.obj, nameRequested)).sent == s.p.sent
    ensures Provided(e, s, nameRequested) == Says(if nameRequested then [L.NameMessage(l)] else L.ValueMessages(l))
  {
    hide Sound, SeenAs, ProviderAt, Says, SaidBy, L.NameMessage, L.ValueMessages, ProvideSource, DistinctLocals,
      Partition, Identified, SubView;
    SeenProvider(e, s, l);
    SeenChannels(e, s, l);
    Parts(e, s);
    var i := NamedSource(e, s);
    ProvideIsAnswer(l, s.p.st, s.p.sent, s.p.st.locals[i], e.obj, nameRequested);
  }

  lemma NamedSource(e: Ends, s: Session) returns (i: nat)
    requires Sound(e, s) && e.h in s.p.st.usable
    ensures s.p.joined && i < |s.p.st.locals|
    ensures var x := s.p.st.locals[i]; x in s.p.st.locals && x.handle == e.h && x.name == e.name && x.conn == e.conn
  {
    hide Remotes, Targets, Partition, SubView, Conserved, LastHeld;
    i := UsableJoined(s.p, e.h);
    assert Identified(s.p) && s.p.st.locals[i] in s.p.st.locals;
  }

  lemma AskedSeen(e: Ends, s: Session, l: L.Link, nameRequested: bool, leak: bool)
    requires Sound(e, s) && SeenAs(e, s, l) && l.registered
    ensures SeenAs(e, Asked(e, s, nameRequested, leak),
      L.Sent(l, leak, if nameRequested then [L.NameMessage(l)] else L.ValueMessages(l)))
  {
    hide *;
    ProvidedSays(e, s, l, nameRequested);
    SeenFrame(e, s, Next(s.p, Provide(e.obj, nameRequested)), l);
    TransferSeen(e, s.(p := Next(s.p, Provide(e.obj, nameRequested))), l, leak, if nameRequested then
      [L.NameMessage(l)] else L.ValueMessages(l));
    AskedIs(e, s, nameRequested, leak);
  }

  lemma AskedIs(e: Ends, s: Session, nameRequested: bool, leak: bool)
    ensures Asked(e, s, nameRequested, leak) == Transfer(s.(p := Next(s.p, Provide(e.obj, nameRequested))), leak,
      Provided(e, s, nameRequested))
  {
  }

  lemma SubscriptionSeen(e: Ends, s: Session, l: L.Link, subscribed: bool)
    requires SeenAs(e, s, l) && s.toProvider != []
    ensures SeenAs(e, s.(toProvider := s.toProvider[1..], subscribed := subscribed),
      l.(toProvider := l.toProvider[1..], subscribed := subscribed))
  {
    ProviderFrame(l, l.(toProvider := l.toProvider[1..], subscribed := subscribed), s.p.st, s.p.sent, e.h, e.obj);
    hide ProviderAt, TookAt, Says;
  }

  lemma RequestSeen(e: Ends, s: Session, l: L.Link)
    requires Sound(e, s) && SeenAs(e, s, l) && s.toProvider != [] && l.registered
    ensures l.toProvider == s.toProvider
    ensures SeenAs(e, Answered(e, s), L.AnswerOne(l.(toProvider := l.toProvider[1..]), l.toProvider[0]))
  {
    hide SeenAs, Sound, Asked, L.Sent, L.NameMessage, L.ValueMessages;
    SeenChannels(e, s, l);
    var ask, rest := s.toProvider[0], s.toProvider[1..];
    var k := l.(toProvider := rest, subscribed := !ask.Unsubscription?);
    var t := s.(toProvider := rest, subscribed := !ask.Unsubscription?);
    SubscriptionSeen(e, s, l, !ask.Unsubscription?);
    if !ask.Unsubscription? {
      SoundFrame(e, s, t);
      AskedSeen(e, t, k, ask.AskName?, false);
    }
  }

  /** What taking a message does to the consumer's value. */
  lemma TakeOneTook(l: L.Link, m: L.Message)
    requires L.Carries(l.initial, l.handed, m)
    ensures var n := L.TakeOne(l, m);
      || (n.taken == l.taken && n.consumed == l.consumed)
      || (!m.Discover? && n.taken == l.taken + [m.nth] && m.nth <= |l.handed|
          && DataPayload(L.Nth(l.initial, l.handed, m.nth)) == Some(n.consumed))
  {
    hide DataPayload, L.Nth;
  }

  lemma TookMore(initial: Payload, handed: seq<Payload>, marks: seq<nat>, took: seq<Payload>, nth: nat, v: Payload)
    requires TookAt(initial, handed, marks, took)
    requires nth <= |handed| && DataPayload(L.Nth(initial, handed, nth)) == Some(v)
    ensures TookAt(initial, handed, marks + [nth], took + [v])
  {
    hide DataPayload, L.Nth;
  }

  lemma FollowsStored(l: L.Link, r: L.Link, effect: Effect, nth: nat, obj: Object)
    requires Follows(l, r, effect, nth, obj)
    ensures r.toProvider == l.toProvider + AsksOf(effect.calls, obj)
    ensures var stored := StoredOf(effect.events);
      if stored.Some? then r.consumed == stored.value && r.taken == l.taken + [nth]
      else r.consumed == l.consumed && r.taken == l.taken
  {
    hide AsksOf, ReceivedOf, DataPayload;
  }

  /** The consumer's service reacts to what is delivered as it does to the link's message. */
  lemma SaidIsMessage(e: Ends, c: State, m: L.Message)
    ensures var said := Says([m])[0];
      if m.Discover? then said.SaidObject? && Reaction(c, m, e.obj, e.name, e.conn) == DiscoverSourceObject(c, e.obj)
      else !said.SaidObject? && Reaction(c, m, e.obj, e.name, e.conn) == Operation(c,
        SourceUpdate(e.obj, AttributesOf(e, said)))
  {
    hide HandleSourceUpdate;
  }

  lemma UpdateSeen(e: Ends, s: Session, l: L.Link, m: L.Message)
    requires SeenAs(e, s, l) && !m.Discover? && L.Carries(l.initial, l.handed, m)
    ensures !Says([m])[0].SaidObject?
    ensures SeenAs(e, Reacted(e, s, Says([m])[0]), L.TakeOne(l, m))
  {
    SaidIsMessage(e, s.c.st, m);
    var n, effect := L.TakeOne(l, m), Reaction(s.c.st, m, e.obj, e.name, e.conn);
    TakeIsReaction(l, s.c.st, m, e.obj, e.name, e.conn);
    FollowsStored(l, n, effect, m.nth, e.obj);
    TakeOneTook(l, m);
    R.TakeOneFrame(l, m);
    ProviderFrame(l, n, s.p.st, s.p.sent, e.h, e.obj);
    hide L.TakeOne, ConsumerAt, ProviderAt, Says, Operation, Reaction, DataPayload, AsksOf, L.Nth, L.Carries,
      Follows, StoredOf, AttributesOf;
    if n.taken != l.taken {
      TookMore(l.initial, l.handed, l.taken, s.took, m.nth, n.consumed);
    }
    hide TookAt;
  }

  lemma DiscoverSeen(e: Ends, s: Session, l: L.Link)
    requires SeenAs(e, s, l)
    ensures SeenAs(e, s.(toProvider := s.toProvider + AsksOf(DiscoverSourceObject(s.c.st, e.obj).calls, e.obj)),
      L.TakeOne(l, L.Discover))
  {
    SaidIsMessage(e, s.c.st, L.Discover);
    TakeIsReaction(l, s.c.st, L.Discover, e.obj, e.name, e.conn);
    ProviderFrame(l, L.TakeOne(l, L.Discover), s.p.st, s.p.sent, e.h, e.obj);
    hide ConsumerAt, ProviderAt, Says, Reaction, AsksOf, TookAt;
  }

  lemma DeliverSeen(e: Ends, s: Session, l: L.Link)
    requires SeenAs(e, s, l) && s.toConsumer != [] && L.Carries(l.initial, l.handed, l.toConsumer[0])
    ensures SeenAs(e, Delivered(e, s), L.TakeOne(l.(toConsumer := l.toConsumer[1..]), l.toConsumer[0]))
  {
    var m, rest := l.toConsumer[0], l.toConsumer[1..];
    var k, t := l.(toConsumer := rest), s.(toConsumer := s.toConsumer[1..]);
    SaidIsMessage(e, s.c.st, m);
    assert Says([m])[0] == s.toConsumer[0] && Says(rest) == t.toConsumer;
    ProviderFrame(l, k, s.p.st, s.p.sent, e.h, e.obj);
    hide ProviderAt, Says, TookAt, Reaction, Operation;
    assert SeenAs(e, t, k);
    hide SeenAs, L.TakeOne, L.Carries, Reacted, AsksOf;
    if m.Discover? {
      DiscoverSeen(e, t, k);
    } else {
      UpdateSeen(e, t, k, m);
    }
  }

  // --- Moves of the provider's federate

  lemma TookBefore(initial: Payload, handed: seq<Payload>, more: seq<Payload>, marks: seq<nat>, took: seq<Payload>)
    requires TookAt(initial, handed, marks, took)
    ensures TookAt(initial, handed + more, marks, took)
  {
    hide DataPayload;
  }

  /** A move of the provider's source after which the link says what its service said. */
  lemma SourceMovedSeen(e: Ends, s: Session, l: L.Link, p: Run, n: L.Link, more: seq<Payload>, leak: bool,
      ms: seq<L.Message>)
    requires SeenAs(e, s, l) && ProviderAt(n, p.st, p.sent, e.h, e.obj)
    requires n == l.(registered := n.registered, handed := l.handed + more, buffered := n.buffered,
                     toConsumer := if l.joined && (l.subscribed || leak) then l.toConsumer + ms else l.toConsumer)
    ensures SeenAs(e, Transfer(s.(p := p), leak, Says(ms)), n)
  {
    TookBefore(l.initial, l.handed, more, l.taken, s.took);
    SaysConcat(l.toConsumer, ms);
    hide ProviderAt, Says, TookAt, HasLocalTarget;
  }

  lemma Parts(e: Ends, s: Session)
    requires Sound(e, s)
    ensures Partition(s.p) && Identified(s.p) && SubView(s.p) && DistinctLocals(s.p.st.locals)
  {
    hide Partition, Identified, SubView;
    assert Partition(s.p);
    DistinctParts(s.p);
  }

  lemma DistinctParts(r: Run)
    requires Partition(r)
    ensures DistinctLocals(r.st.locals)
  {
    hide DistinctLocals;
  }

  lemma SeenProvider(e: Ends, s: Session, l: L.Link)
    requires SeenAs(e, s, l)
    ensures ProviderAt(l, s.p.st, s.p.sent, e.h, e.obj)
  {
    hide ProviderAt;
  }

  /** Handing over, as the link does it and says it. */
  lemma HandOverMessages(l: L.Link, leak: bool) returns (ms: seq<L.Message>)
    requires l.registered
    ensures L.Next(l, L.HandOver(leak)) == l.(handed := l.handed + l.buffered, buffered := [],
      toConsumer := if l.joined && (l.subscribed || leak) then l.toConsumer + ms else l.toConsumer)
    ensures Says(ms) == Values(l.buffered)
  {
    HandedOverLink(l, leak);
    ms := HandOverSays(l, leak, l.buffered);
    hide Says, Values, L.HandOverAll;
  }

  lemma HandOverSeen(e: Ends, s: Session, l: L.Link, leak: bool)
    requires Sound(e, s) && SeenAs(e, s, l) && l.registered
    ensures SeenAs(e, Transfer(s.(p := Next(s.p, Process)), leak,
      SaidBy(ProcessBuffers(s.p.st).calls, e.obj, e.name, e.conn)), L.Next(l, L.HandOver(leak)))
  {
    hide Sound, SeenAs, Partition, Identified, SubView, ProviderAt, SaidBy, ProcessBuffers, Next, L.Next, Says,
      Values, Transfer, DistinctLocals;
    Parts(e, s);
    SeenProvider(e, s, l);
    ProcessIsHandOver(l, s.p, e.h, e.obj, leak);
    ProcessSays(l, s.p, e.h, e.obj, e.name, e.conn);
    var ms := HandOverMessages(l, leak);
    SourceMovedSeen(e, s, l, Next(s.p, Process), L.Next(l, L.HandOver(leak)), l.buffered, leak, ms);
  }

  /** A move after which the provider's source is where it was and nothing was said. */
  lemma QuietSeen(e: Ends, s: Session, l: L.Link, p: Run, leak: bool)
    requires SeenAs(e, s, l) && ProviderAt(l, p.st, p.sent, e.h, e.obj)
    ensures SeenAs(e, Transfer(s.(p := p), leak, []), l)
  {
    assert s.toConsumer + [] == s.toConsumer;
    hide ProviderAt, ConsumerAt, Says, TookAt;
  }

  lemma UnregisteredProcess(e: Ends, s: Session, l: L.Link, leak: bool)
    requires Sound(e, s) && SeenAs(e, s, l) && !l.registered
    ensures SeenAs(e, Transfer(s.(p := Next(s.p, Process)), leak,
      SaidBy(ProcessBuffers(s.p.st).calls, e.obj, e.name, e.conn)), l)
  {
    Parts(e, s);
    SeenProvider(e, s, l);
    hide *;
    ProcessIsHandOver(l, s.p, e.h, e.obj, leak);
    ProcessSays(l, s.p, e.h, e.obj, e.name, e.conn);
    QuietSeen(e, s, l, Next(s.p, Process), leak);
  }

  lemma {:induction false} SilentCalls(calls: seq<RtiCall>, obj: Object, name: string, conn: string)
    requires forall c :: c in calls ==> SaidOf(c, obj, name, conn) == []
    ensures SaidBy(calls, obj, name, conn) == []
  {
    hide SaidOf;
    if calls != [] { SilentCalls(calls[..|calls| - 1], obj, name, conn); }
  }

  /** Nothing is said about the object by other operations of the provider's service. */
  lemma OthersSayNothing(st: State, step: Step, obj: Object, name: string, conn: string)
    requires !step.Process? && ((step.Provide? || step.Reserved?) ==> step.obj != obj)
    ensures SaidBy(Operation(st, step).calls, obj, name, conn) == []
  {
    hide FindLocal, LocalHandles, RegisteredHandles, WithoutSource, WithoutRegistration, FindUuid, FindObject,
      FindRemote, HasLocalTarget, RunCallback, SaidBy, SavedLast;
    SilentCalls(Operation(st, step).calls, obj, name, conn);
  }

  /** The name of another source was reserved. */
  lemma ReservedOtherKeeps(e: Ends, p: Run, l: L.Link, uuid: Uuid, obj: Object)
    requires ProviderAt(l, p.st, p.sent, e.h, e.obj) && obj != e.obj && !Awaits(p.st, uuid, e.h)
    ensures ProviderAt(l, Next(p, Reserved(uuid, obj)).st, Next(p, Reserved(uuid, obj)).sent, e.h, e.obj)
  {
    var n := Next(p, Reserved(uuid, obj));
    match FindUuid(p.st.locals, uuid)
    case None =>
    case Some(i) =>
      var x := p.st.locals[i];
      assert x in p.st.locals && x.handle != e.h;
      assert n.st == p.st.(locals := p.st.locals[i := x.(obj := Some(obj))], usable := p.st.usable + {x.handle})
        && n.sent == p.sent;
      hide Next, FindUuid, Of, L.Last;
      assert forall y :: y in n.st.locals ==> y in p.st.locals || y == x.(obj := Some(obj));
  }

  /** The federate of the provider joins: its registration is buffered. */
  lemma JoinKeepsSource(e: Ends, p: Run, l: L.Link)
    requires ProviderAt(l, p.st, p.sent, e.h, e.obj) && Keeps(e, p) && L.Last(l) == e.initial
    ensures ProviderAt(l, Next(p, Join).st, Next(p, Join).sent, e.h, e.obj)
  {
    var n := Next(p, Join);
    assert n.st.buffered == p.st.buffered + p.st.persistent && n.st.locals == p.st.locals && n.st.usable == p.st.usable;
    assert n.st.transmits == p.st.transmits && n.sent == p.sent;
    hide Next, Of, L.Last, SourceAt;
  }

  lemma EnterKeepsSource(e: Ends, p: Run, l: L.Link)
    requires ProviderAt(l, p.st, p.sent, e.h, e.obj)
    ensures ProviderAt(l, Next(p, EnterInitFederate).st, Next(p, EnterInitFederate).sent, e.h, e.obj)
  {
    hide Of, L.Last, SourceAt, Sendable;
  }

  lemma AwaitedSource(e: Ends, s: Session, uuid: Uuid) returns (i: nat)
    requires Sound(e, s) && Awaits(s.p.st, uuid, e.h)
    ensures i < |s.p.st.locals|
    ensures var x := s.p.st.locals[i]; x.uuid == uuid && x.handle == e.h && x.name == e.name && x.conn == e.conn
  {
    hide Remotes, Targets, Partition, SubView, Conserved, LastHeld;
    var x :| x in s.p.st.locals && x.uuid == uuid && x.handle == e.h;
    i :| 0 <= i < |s.p.st.locals| && s.p.st.locals[i] == x;
    assert Identified(s.p);
  }

  /** Registering its object, as the link does it and says it. */
  lemma RegisterMessages(l: L.Link) returns (ms: seq<L.Message>)
    requires !l.registered
    ensures ms == [L.Discover, L.NameMessage(l)]
    ensures (l.joined ==> l.subscribed) ==> L.Next(l, L.Step.RegisterObject) == l.(registered := true,
      handed := l.handed + [],
      toConsumer := if l.joined then l.toConsumer + ms else l.toConsumer)
  {
    ms := [L.Discover, L.NameMessage(l)];
    assert L.NameMessage(l.(registered := true)) == L.NameMessage(l) && l.handed + [] == l.handed;
    hide L.NameMessage;
  }

  /** The name of the source was reserved: its object is registered. */
  lemma RegisterSeen(e: Ends, s: Session, l: L.Link, uuid: Uuid, leak: bool)
    requires Sound(e, s) && SeenAs(e, s, l) && Awaits(s.p.st, uuid, e.h) && !l.registered && (l.joined ==> l.subscribed)
    ensures SeenAs(e, Transfer(s.(p := Next(s.p, Reserved(uuid, e.obj))), leak,
      SaidBy(SourceReserved(s.p.st, uuid, e.obj).calls, e.obj, e.name, e.conn)),
                   L.Next(l, L.Step.RegisterObject))
  {
    ReservedRun(s.p, uuid, e.obj);
    hide Sound, SeenAs, Partition, Identified, SubView, ProviderAt, SaidBy, SourceReserved, Next, L.Next,
      L.NameMessage, Says, Transfer, DistinctLocals, Awaits;
    Parts(e, s);
    SeenProvider(e, s, l);
    var i := AwaitedSource(e, s, uuid);
    ReservationIsStep(l, s.p.st, s.p.sent, i, e.obj);
    var ms := RegisterMessages(l);
    SourceMovedSeen(e, s, l, Next(s.p, Reserved(uuid, e.obj)), L.Next(l, L.Step.RegisterObject), [], leak, ms);
  }

  lemma ReservedRun(r: Run, uuid: Uuid, obj: Object)
    ensures Next(r, Reserved(uuid, obj)).st == SourceReserved(r.st, uuid, obj).st
      && Next(r, Reserved(uuid, obj)).sent == r.sent
  {
    hide SourceReserved;
  }

  // --- Moves of the consumer's federate

  lemma {:induction false} SilentAsks(calls: seq<RtiCall>, obj: Object)
    requires forall c :: c in calls ==> AskOf(c, obj) == []
    ensures AsksOf(calls, obj) == []
  {
    if calls != [] { SilentAsks(calls[1..], obj); }
  }

  lemma {:induction false} AsksConcat(a: seq<RtiCall>, b: seq<RtiCall>, obj: Object)
    ensures AsksOf(a + b, obj) == AsksOf(a, obj) + AsksOf(b, obj)
  {
    hide AsksOf, AskOf;
    if a == [] {
      SilentAsks([], obj);
      assert a + b == b && [] + AsksOf(b, obj) == AsksOf(b, obj);
    } else {
      var call, rest := a[0], a[1..];
      AsksConcat(rest, b, obj);
      assert a == [call] + rest && a + b == [call] + (rest + b);
      AsksFront(call, rest, obj);
      AsksFront(call, rest + b, obj);
    }
  }

  ghost predicate SameFor(obj: Object, a: State, b: State) {
    && (obj in a.remoteIndex <==> obj in b.remoteIndex)
      && (obj in a.remoteIndex ==> a.remoteIndex[obj] == b.remoteIndex[obj])
    && a.localTargets == b.localTargets && a.callbacks == b.callbacks
  }

  /** Other operations of the consumer's service neither ask for the object nor change what it
      knows of it. */
  lemma OthersAskNothing(st: State, step: Step, obj: Object)
    requires !step.Process? && !step.ResetAll? && ((step.SourceUpdate? || step.SourceRemoved?) ==> step.obj != obj)
    ensures AsksOf(Operation(st, step).calls, obj) == [] && SameFor(obj, st, Operation(st, step).st)
  {
    hide Operation, AsksOf;
    OthersKeepTargets(st, step);
    OthersCalls(st, step, obj);
    SilentAsks(Operation(st, step).calls, obj);
    OthersIndex(st, step, obj);
  }

  lemma OthersCalls(st: State, step: Step, obj: Object)
    requires !step.Process? && !step.ResetAll? && ((step.SourceUpdate? || step.SourceRemoved?) ==> step.obj != obj)
    ensures forall c :: c in Operation(st, step).calls ==> AskOf(c, obj) == []
  {
    hide FindLocal, LocalHandles, RegisteredHandles, WithoutSource, WithoutRegistration, FindUuid, FindObject,
      FindRemote, HasLocalTarget, RunCallback;
  }

  lemma OthersIndex(st: State, step: Step, obj: Object)
    requires !step.Process? && !step.ResetAll? && ((step.SourceUpdate? || step.SourceRemoved?) ==> step.obj != obj)
    ensures var index, now := st.remoteIndex, Operation(st, step).st.remoteIndex;
      (obj in index <==> obj in now) && (obj in index ==> index[obj] == now[obj])
  {
    hide FindLocal, LocalHandles, RegisteredHandles, WithoutSource, WithoutRegistration, FindUuid, FindObject,
      FindRemote, HasLocalTarget, RunCallback;
  }

  lemma ConsumerFrame(l: L.Link, n: L.Link, a: State, b: State, e: Ends)
    requires ConsumerAt(l, a, e.obj, e.name, e.conn) && SameFor(e.obj, a, b) && n.known == l.known
      && n.target == l.target
    ensures ConsumerAt(n, b, e.obj, e.name, e.conn)
  {
    hide HasLocalTarget;
  }

  /** The only callbacks run by a step that is not about the member are those of other names. */
  lemma ForeignCallbacks(e: Ends, st: State, step: Step)
    requires Recorded(st) && Alone(e, st) && Foreign(e, step)
    ensures forall event :: event in Operation(st, step).events ==> ForCallback(e, st, event) == []
  {
    if step.SourceUpdate? {
      ForeignUpdate(e, st, step.obj, step.attrs);
      hide HandleSourceUpdate;
    } else {
      hide Recorded, FindLocal, LocalHandles, RegisteredHandles, WithoutSource, WithoutRegistration, FindUuid,
        FindObject, FindRemote, HasLocalTarget, ProcessBuffers;
    }
  }

  lemma ForeignUpdate(e: Ends, st: State, obj: Object, attrs: Attributes)
    requires Recorded(st) && Alone(e, st) && obj != e.obj && attrs.identity != Some((e.name, e.conn))
    ensures forall event :: event in HandleSourceUpdate(st, obj, attrs).events ==> ForCallback(e, st, event) == []
  {
    hide HasLocalTarget;
    match attrs.identity
    case Some((name, conn)) => OtherCallback(e, st, name, conn);
    case None => if obj in st.remoteIndex { OtherCallback(e, st, st.remoteIndex[obj].name, st.remoteIndex[obj].conn); }
  }

  lemma OtherCallback(e: Ends, st: State, name: string, conn: string)
    requires Recorded(st) && (name != e.name || conn != e.conn)
    ensures (conn, name) in st.callbacks && (e.conn, e.name) in st.callbacks ==>
      st.callbacks[(conn, name)] != st.callbacks[(e.conn, e.name)]
  {
    hide AllRecorded;
    if (conn, name) in st.callbacks && (e.conn, e.name) in st.callbacks {
      RecordOf(st, (conn, name));
      RecordOf(st, (e.conn, e.name));
    }
  }

  lemma RecordOf(st: State, k: (string, string))
    requires Recorded(st) && k in st.callbacks
    ensures TargetRegistration(k.1, k.0, st.callbacks[k]) in st.persistentTargets
  {
  }

  lemma {:induction false} NoneForMember(e: Ends, st: State, events: seq<Event>)
    requires forall event :: event in events ==> ForCallback(e, st, event) == []
    ensures ForMember(e, st, events) == []
  {
    if events != [] {
      hide ForCallback;
      assert events[0] in events;
      NoneForMember(e, st, events[1..]);
    }
  }

  /** A step of the consumer's service that is not about the member stores nothing. */
  lemma NothingStored(e: Ends, s: Session, step: Step)
    requires Sound(e, s) && Possible(e, s, AtConsumer(step))
    ensures ForMember(e, s.c.st, Operation(s.c.st, step).events) == []
    ensures After(e, s, AtConsumer(step)) == ConsumerMoved(e, s, step)
  {
    hide Invariant, Remotes, Targets, Recorded, Lined, Alone, Operation, ForCallback, ConsumerMoved, Enabled, Foreign;
    ForeignCallbacks(e, s.c.st, step);
    NoneForMember(e, s.c.st, Operation(s.c.st, step).events);
  }

  /** A step that asks nothing about the object and stores nothing changes only the consumer's service. */
  lemma AsideStep(e: Ends, s: Session, step: Step)
    requires Possible(e, s, AtConsumer(step)) && !step.Join?
    requires ForMember(e, s.c.st, Operation(s.c.st, step).events) == []
    requires AsksOf(Operation(s.c.st, step).calls, e.obj) == []
    ensures After(e, s, AtConsumer(step)) == s.(c := Next(s.c, step))
    ensures Next(s.c, step).st == Operation(s.c.st, step).st
    ensures Next(s.c, step).joined == (s.c.joined && !step.ResetAll?)
  {
    hide ForMember, Operation, AsksOf, Enabled;
    assert s.toProvider + [] == s.toProvider && s.toConsumer + [] == s.toConsumer;
  }

  /** A step of the consumer's service that is not about the member: it asks nothing about the object,
      changes nothing the link shows, and runs the member's callback with nothing. */
  lemma OtherSeen(e: Ends, s: Session, l: L.Link, step: Step)
    requires Sound(e, s) && SeenAs(e, s, l) && Possible(e, s, AtConsumer(step)) && !step.Process? && !step.Join?
    ensures ForMember(e, s.c.st, Operation(s.c.st, step).events) == []
    ensures SeenAs(e, After(e, s, AtConsumer(step)), l)
  {
    NothingStored(e, s, step);
    hide Sound, ForMember, After, Enabled, ProviderAt, ConsumerAt, Says, TookAt, Operation, AsksOf, Next;
    OthersAskNothing(s.c.st, step, e.obj);
    ConsumerFrame(l, l, s.c.st, Operation(s.c.st, step).st, e);
    AsideStep(e, s, step);
  }

  lemma JoinSeen(e: Ends, s: Session, l: L.Link)
    requires SeenAs(e, s, l) && Enabled(s.c, Join)
    ensures !l.joined && Operation(s.c.st, Join).calls == []
    ensures SeenAs(e, s.(c := Next(s.c, Join), subscribed := true,
      toConsumer := s.toConsumer + if e.h in s.p.st.usable then [SaidObject] else []),
                   L.Next(l, L.JoinConsumer))
  {
    OthersAskNothing(s.c.st, Join, e.obj);
    var n := L.Next(l, L.JoinConsumer);
    ConsumerFrame(l, n, s.c.st, Operation(s.c.st, Join).st, e);
    ProviderFrame(l, n, s.p.st, s.p.sent, e.h, e.obj);
    assert l.registered <==> e.h in s.p.st.usable;
    SaysConcat(l.toConsumer, [L.Discover]);
    assert Says([L.Discover]) == [SaidObject] && s.toConsumer + [] == s.toConsumer;
    hide ProviderAt, ConsumerAt, Says, TookAt;
  }

  /** What registering targets does to the link. */
  function TargetsAdded(l: L.Link, rs: seq<TargetRegistration>, e: Ends): L.Link {
    if rs == [] then l else TargetAdded(TargetsAdded(l, rs[..|rs| - 1], e), rs[|rs| - 1], e.name, e.conn)
  }

  lemma {:induction false} TargetsAreSteps(l: L.Link, c: State, rs: seq<TargetRegistration>, e: Ends)
    requires ConsumerAt(l, c, e.obj, e.name, e.conn) && Agree(c.remotes, c.remoteIndex)
    ensures var n, effect := TargetsAdded(l, rs, e), CreateTargets(c, rs);
      && ConsumerAt(n, effect.st, e.obj, e.name, e.conn) && Agree(effect.st.remotes, effect.st.remoteIndex)
      && n == l.(target := n.target, toProvider := l.toProvider + AsksOf(effect.calls, e.obj))
  {
    hide ConsumerAt, Agree, CreateTarget, TargetAdded;
    if rs == [] {
      assert l.toProvider + [] == l.toProvider;
    } else {
      var front, r := rs[..|rs| - 1], rs[|rs| - 1];
      assert rs == front + [r];
      TargetsAreSteps(l, c, front, e);
      OneMoreTarget(l, c, front, r, e);
    }
  }

  lemma MoreTargets(l: L.Link, c: State, front: seq<TargetRegistration>, r: TargetRegistration, e: Ends)
    ensures TargetsAdded(l, front + [r], e) == TargetAdded(TargetsAdded(l, front, e), r, e.name, e.conn)
    ensures var a := CreateTargets(c, front);
      CreateTargets(c, front + [r]) == Effect(CreateTarget(a.st, r).st, a.calls + CreateTarget(a.st, r).calls, [])
  {
    hide CreateTarget, TargetAdded;
    assert (front + [r])[..|front|] == front;
  }

  lemma OneMoreTarget(l: L.Link, c: State, front: seq<TargetRegistration>, r: TargetRegistration, e: Ends)
    requires var n, effect := TargetsAdded(l, front, e), CreateTargets(c, front);
      && ConsumerAt(n, effect.st, e.obj, e.name, e.conn) && Agree(effect.st.remotes, effect.st.remoteIndex)
      && n == l.(target := n.target, toProvider := l.toProvider + AsksOf(effect.calls, e.obj))
    ensures var n, effect := TargetsAdded(l, front + [r], e), CreateTargets(c, front + [r]);
      && ConsumerAt(n, effect.st, e.obj, e.name, e.conn) && Agree(effect.st.remotes, effect.st.remoteIndex)
      && n == l.(target := n.target, toProvider := l.toProvider + AsksOf(effect.calls, e.obj))
  {
    var a := CreateTargets(c, front);
    var b := CreateTarget(a.st, r);
    hide *;
    MoreTargets(l, c, front, r, e);
    CreateTargetIsStep(TargetsAdded(l, front, e), a.st, r, e.obj, e.name, e.conn);
    AsksConcat(a.calls, b.calls, e.obj);
    assert l.toProvider + AsksOf(a.calls, e.obj) + AsksOf(b.calls, e.obj) == l.toProvider
      + (AsksOf(a.calls, e.obj) + AsksOf(b.calls, e.obj));
  }

  lemma {:induction false} TargetsReach(l: L.Link, steps: seq<L.Step>, start: L.Link, rs: seq<TargetRegistration>,
      e: Ends) returns (more: seq<L.Step>)
    requires L.Reachable(l, steps, start)
    ensures L.Reachable(TargetsAdded(l, rs, e), more, start)
  {
    if rs == [] {
      more := steps;
    } else {
      hide L.Reachable, L.Next;
      var r, k := rs[|rs| - 1], TargetsAdded(l, rs[..|rs| - 1], e);
      more := TargetsReach(l, steps, start, rs[..|rs| - 1], e);
      if r.name == e.name {
        var step := if r.conn == e.conn && !k.target then L.AddTarget else L.AddNamesake;
        R.Extended(k, more, start, step);
        more := more + [step];
      }
    }
  }

  /** Of the calls made by processing the buffers only those for the targets ask for anything. */
  lemma ProcessAsks(r: Run, obj: Object)
    requires Invariant(r)
    ensures AsksOf(ProcessBuffers(r.st).calls, obj) == AsksOf(CreateTargets(r.st, r.st.bufferedTargets).calls, obj)
  {
    var st := r.st;
    var a := CreateTargets(st, st.bufferedTargets);
    var b := CreateSources(a.st.(bufferedTargets := []), st.buffered);
    var c := TransmitAll(b.st.(buffered := [], transmits := []), st.transmits);
    assert ProcessBuffers(st).calls == a.calls + b.calls + c.calls;
    hide *;
    CreatingHandsNothing(a.st.(bufferedTargets := []), st.buffered);
    TransmitHandsData(b.st.(buffered := [], transmits := []), st.transmits);
    NoAsks(b.calls, obj);
    NoAsks(c.calls, obj);
    AsksConcat(a.calls, b.calls, obj);
    AsksConcat(a.calls + b.calls, c.calls, obj);
  }

  lemma NoAsks(calls: seq<RtiCall>, obj: Object)
    requires forall c :: c in calls ==> c.Reserve? || c.UpdateData?
    ensures AsksOf(calls, obj) == []
  {
    SilentAsks(calls, obj);
  }

  lemma {:induction false} TransmitHandsData(st: State, ts: seq<Transmit>)
    ensures forall c :: c in TransmitAll(st, ts).calls ==> c.UpdateData?
  {
    if ts != [] {
      TransmitHandsData(st, ts[..|ts| - 1]);
      hide TransmitAll, FindLocal, LocalHandles, WithLast;
      TransmitUnfolded(st, ts);
    }
  }

  lemma {:induction false} TransmitUnfolded(st: State, ts: seq<Transmit>)
    requires ts != []
    ensures TransmitAll(st, ts).calls ==
      TransmitAll(st, ts[..|ts| - 1]).calls + TransmitOne(TransmitAll(st, ts[..|ts| - 1]).st, ts[|ts| - 1]).calls
  {
    hide TransmitOne;
  }

  /** A move of the consumer's service after which the link knows and asks what it does. */
  lemma ConsumerMovedSeen(e: Ends, s: Session, l: L.Link, c: Run, n: L.Link, asks: seq<L.Ask>)
    requires SeenAs(e, s, l) && ConsumerAt(n, c.st, e.obj, e.name, e.conn) && c.joined == s.c.joined
    requires n == l.(target := n.target, toProvider := l.toProvider + asks)
    ensures SeenAs(e, s.(c := c, toProvider := s.toProvider + asks), n)
  {
    ProviderFrame(l, n, s.p.st, s.p.sent, e.h, e.obj);
    hide ConsumerAt, ProviderAt, TookAt, Says;
  }

  lemma SeenConsumer(e: Ends, s: Session, l: L.Link)
    requires Sound(e, s) && SeenAs(e, s, l)
    ensures ConsumerAt(l, s.c.st, e.obj, e.name, e.conn) && Agree(s.c.st.remotes, s.c.st.remoteIndex) && Invariant(s.c)
  {
    hide ConsumerAt, Agree, Invariant;
  }

  lemma ProcessedRun(r: Run)
    ensures Next(r, Process).st == ProcessBuffers(r.st).st && Next(r, Process).joined == r.joined
  {
    hide ProcessBuffers, Sendable;
  }

  lemma TargetsSeen(e: Ends, s: Session, l: L.Link)
    requires Sound(e, s) && SeenAs(e, s, l)
    ensures SeenAs(e, s.(c := Next(s.c, Process), toProvider := s.toProvider
      + AsksOf(ProcessBuffers(s.c.st).calls, e.obj)),
                   TargetsAdded(l, s.c.st.bufferedTargets, e))
  {
    var rs := s.c.st.bufferedTargets;
    var n := TargetsAdded(l, rs, e);
    hide *;
    SeenConsumer(e, s, l);
    TargetsAreSteps(l, s.c.st, rs, e);
    ProcessedTargets(s.c);
    ProcessAsks(s.c, e.obj);
    ProcessedRun(s.c);
    SameTargets(e.obj, CreateTargets(s.c.st, rs).st, ProcessBuffers(s.c.st).st);
    ConsumerFrame(n, n, CreateTargets(s.c.st, rs).st, ProcessBuffers(s.c.st).st, e);
    ConsumerMovedSeen(e, s, l, Next(s.c, Process), n, AsksOf(ProcessBuffers(s.c.st).calls, e.obj));
  }

  lemma SameTargets(obj: Object, a: State, b: State)
    requires a.remoteIndex == b.remoteIndex && a.localTargets == b.localTargets && a.callbacks == b.callbacks
    ensures SameFor(obj, a, b)
  {
  }

  // ----- Every session is a run of the link -----

  lemma SoundAfter(e: Ends, s: Session, move: Move)
    requires Sound(e, s) && Possible(e, s, move)
    requires (move.ForeignRequest? || move.Request?) ==> s.p.joined
    requires move.Deliver? ==> s.c.joined
    ensures Sound(e, After(e, s, move))
  {
    hide Sound, WithValue, Transfer, Delivered, Answered, Asked, Operation, SaidBy, AsksOf, Next, Enabled, Stored,
      ForMember;
    match move
    case Set(v) =>
      SetSound(e, s, v);
    case AtProvider(step, leak) =>
      ProviderSound(e, s, step);
      TransferSound(e, s.(p := Next(s.p, step)), leak, SaidBy(Operation(s.p.st, step).calls, e.obj, e.name, e.conn));
    case AtConsumer(step) =>
      NothingStored(e, s, step);
      ConsumerSound(e, s, step);
      SoundFrame(e, s.(c := Next(s.c, step)), ConsumerMoved(e, s, step));
    case Deliver =>
      DeliveredSound(e, s);
    case Request =>
      AnsweredSound(e, s);
    case ForeignRequest(nameRequested, leak) =>
      AskedSound(e, s, nameRequested, leak);
  }

  lemma TransferSound(e: Ends, s: Session, leak: bool, said: seq<Said>)
    requires Sound(e, s)
    ensures Sound(e, Transfer(s, leak, said))
  {
    hide Sound;
    SoundFrame(e, s, Transfer(s, leak, said));
  }

  lemma SetSound(e: Ends, s: Session, v: Payload)
    requires Sound(e, s)
    ensures Sound(e, WithValue(e, s, v))
  {
    hide Sound, Next;
    ProviderSound(e, s, Submit(e.h, DataPacket(v)));
    SoundFrame(e, if e.onChange && v == s.provided then s
      else s.(p := Next(s.p, Submit(e.h, DataPacket(v)))), WithValue(e, s, v));
  }

  lemma AskedSound(e: Ends, s: Session, nameRequested: bool, leak: bool)
    requires Sound(e, s) && s.p.joined
    ensures Sound(e, Asked(e, s, nameRequested, leak))
  {
    hide Sound, Transfer, Next, Provided;
    ProviderSound(e, s, Provide(e.obj, nameRequested));
    TransferSound(e, s.(p := Next(s.p, Provide(e.obj, nameRequested))), leak, Provided(e, s, nameRequested));
  }

  lemma AnsweredSound(e: Ends, s: Session)
    requires Sound(e, s) && s.p.joined && s.toProvider != []
    ensures Sound(e, Answered(e, s))
  {
    hide Sound, Asked;
    var ask := s.toProvider[0];
    var t := s.(toProvider := s.toProvider[1..], subscribed := !ask.Unsubscription?);
    SoundFrame(e, s, t);
    if !ask.Unsubscription? { AskedSound(e, t, ask.AskName?, false); }
  }

  lemma DeliveredSound(e: Ends, s: Session)
    requires Sound(e, s) && s.toConsumer != [] && s.c.joined
    ensures Sound(e, Delivered(e, s))
  {
    hide Sound, Operation, AsksOf, StoredOf, AttributesOf, Next, DiscoverSourceObject;
    var said := s.toConsumer[0];
    if said.SaidObject? {
      SoundFrame(e, s, Delivered(e, s));
    } else {
      var step := SourceUpdate(e.obj, AttributesOf(e, said));
      ConsumerSound(e, s, step);
      SoundFrame(e, s.(c := Next(s.c, step)), Delivered(e, s));
    }
  }

  /** What the link's own invariants say about a session seen as it. */
  lemma LinkSays(e: Ends, s: Session, l: L.Link)
    requires SeenAs(e, s, l) && L.Ordered(l) && L.Converging(l) && Sound(e, s)
    ensures s.toConsumer != [] ==> s.c.joined && L.Carries(l.initial, l.handed, l.toConsumer[0])
    ensures s.toProvider != [] ==> l.registered
    ensures l.registered ==> s.p.joined
    ensures !l.registered ==> L.Last(l) == e.initial && (l.joined ==> l.subscribed)
  {
    hide L.Carries, L.Current, L.InSequence, L.AllPackets, TookAt, L.Drain, L.ValueAsked, L.NoUnsubscription,
      ConsumerAt;
    if s.toConsumer != [] {
      assert l.toConsumer[0] in l.toConsumer;
    }
    if l.registered {
      SeenProvider(e, s, l);
      assert e.h in s.p.st.usable;
      var i := UsableJoined(s.p, e.h);
    }
  }

  lemma NotYetRegistered(e: Ends, s: Session, l: L.Link, step: Step)
    requires Sound(e, s) && SeenAs(e, s, l) && step.Reserved? && step.obj == e.obj && Enabled(s.p, step)
    ensures !l.registered
  {
    hide Sound, SeenAs;
    if l.registered { RegisteredFound(e, s, l); }
  }

  lemma RegisteredFound(e: Ends, s: Session, l: L.Link)
    requires Sound(e, s) && SeenAs(e, s, l) && l.registered
    ensures FindObject(s.p.st.locals, e.obj).Some?
  {
    hide ConsumerAt, TookAt, Says;
    var i := UsableJoined(s.p, e.h);
    var x := s.p.st.locals[i];
    assert x in s.p.st.locals && SourceAt(l, x, e.h, e.obj);
  }

  /** A step of the provider's service that concerns other sources, or none. */
  lemma QuietStep(e: Ends, s: Session, l: L.Link, step: Step, leak: bool)
    requires Sound(e, s) && SeenAs(e, s, l) && Possible(e, s, AtProvider(step, leak))
    requires !step.Process? && !(step.Reserved? && step.obj == e.obj)
    requires step.Join? ==> L.Last(l) == e.initial
    ensures SeenAs(e, Transfer(s.(p := Next(s.p, step)), leak,
      SaidBy(Operation(s.p.st, step).calls, e.obj, e.name, e.conn)), l)
  {
    hide SeenAs, Sound, ProviderAt, Next, Operation, SaidBy, Transfer, Partition, Identified, L.Last, Awaits,
      Enabled, Keeps, DistinctLocals, SubView;
    Parts(e, s);
    SeenProvider(e, s, l);
    SoundKeeps(e, s);
    OthersSayNothing(s.p.st, step, e.obj, e.name, e.conn);
    if step.Reserved? {
      ReservedOtherKeeps(e, s.p, l, step.uuid, step.obj);
    } else if step.Join? {
      JoinKeepsSource(e, s.p, l);
    } else if step.EnterInitFederate? {
      EnterKeepsSource(e, s.p, l);
    } else {
      OtherStepsKeep(l, s.p, step, e.h, e.obj);
    }
    QuietSeen(e, s, l, Next(s.p, step), leak);
  }

  lemma SoundKeeps(e: Ends, s: Session)
    requires Sound(e, s)
    ensures Keeps(e, s.p) && e.h in s.p.issued
  {
    hide Invariant, Remotes, Targets;
  }

  lemma ProviderMoveSeen(e: Ends, s: Session, l: L.Link, steps: seq<L.Step>, start: L.Link, step: Step, leak: bool)
    returns (n: L.Link, more: seq<L.Step>)
    requires Sound(e, s) && SeenAs(e, s, l) && L.Ordered(l) && L.Converging(l) && L.Reachable(l, steps, start)
    requires Possible(e, s, AtProvider(step, leak))
    ensures L.Reachable(n, more, start)
    ensures SeenAs(e, Transfer(s.(p := Next(s.p, step)), leak,
      SaidBy(Operation(s.p.st, step).calls, e.obj, e.name, e.conn)), n)
  {
    hide Sound, SeenAs, L.Ordered, L.Converging, L.Reachable, Next, SaidBy, Transfer, Enabled, Awaits, L.Next,
      ProcessBuffers, SourceReserved, L.Last, L.Carries;
    LinkSays(e, s, l);
    n, more := l, steps;
    if step.Process? && l.registered {
      HandOverSeen(e, s, l, leak);
      n, more := L.Next(l, L.HandOver(leak)), steps + [L.HandOver(leak)];
      R.Extended(l, steps, start, L.HandOver(leak));
    } else if step.Process? {
      UnregisteredProcess(e, s, l, leak);
    } else if step.Reserved? && step.obj == e.obj {
      NotYetRegistered(e, s, l, step);
      RegisterSeen(e, s, l, step.uuid, leak);
      n, more := L.Next(l, L.Step.RegisterObject), steps + [L.Step.RegisterObject];
      R.Extended(l, steps, start, L.Step.RegisterObject);
    } else {
      JoinUnregistered(e, s, step);
      QuietStep(e, s, l, step, leak);
    }
  }

  lemma JoinUnregistered(e: Ends, s: Session, step: Step)
    requires Enabled(s.p, step)
    ensures step.Join? ==> !s.p.joined
  {
  }

  lemma ConsumerMoveSeen(e: Ends, s: Session, l: L.Link, steps: seq<L.Step>, start: L.Link, step: Step)
    returns (n: L.Link, more: seq<L.Step>)
    requires Sound(e, s) && SeenAs(e, s, l) && L.Reachable(l, steps, start) && Possible(e, s, AtConsumer(step))
    ensures L.Reachable(n, more, start) && SeenAs(e, After(e, s, AtConsumer(step)), n)
  {
    NothingStored(e, s, step);
    hide Sound, SeenAs, L.Reachable, Next, Enabled, L.Next, Operation, AsksOf, TargetsAdded, ForMember, After;
    assert s.toConsumer + [] == s.toConsumer && s.toProvider + [] == s.toProvider;
    if step.Process? {
      TargetsSeen(e, s, l);
      ProcessCallsAre(s.c.st);
      n := TargetsAdded(l, s.c.st.bufferedTargets, e);
      more := TargetsReach(l, steps, start, s.c.st.bufferedTargets, e);
    } else if step.Join? {
      JoinSeen(e, s, l);
      SilentAsks([], e.obj);
      n, more := L.Next(l, L.JoinConsumer), steps + [L.JoinConsumer];
      R.Extended(l, steps, start, L.JoinConsumer);
    } else {
      OtherSeen(e, s, l, step);
      n, more := l, steps;
    }
  }

  lemma ProcessCallsAre(st: State)
    ensures Operation(st, Process).calls == ProcessBuffers(st).calls
  {
    hide ProcessBuffers;
  }

  /** Each move of a session is one of the link, or several, or none. */
  lemma MoveSeen(e: Ends, s: Session, l: L.Link, steps: seq<L.Step>, start: L.Link, move: Move)
    returns (n: L.Link, more: seq<L.Step>)
    requires Sound(e, s) && SeenAs(e, s, l) && L.Starting(start) && L.Reachable(l, steps, start) && Possible(e, s, move)
    ensures L.Reachable(n, more, start) && SeenAs(e, After(e, s, move), n)
    ensures Sound(e, After(e, s, move))
  {
    hide Sound, SeenAs, L.Starting, L.Reachable, L.Ordered, L.Converging, L.Submitted, L.Carries, L.Last, WithValue,
      Delivered, Answered, Asked,
      Transfer, Operation, AsksOf, SaidBy, Next, L.TakeOne, L.AnswerOne, L.Sent, L.NameMessage, L.ValueMessages;
    R.ReachedInvariants(l, steps, start);
    LinkSays(e, s, l);
    SeenChannels(e, s, l);
    SoundAfter(e, s, move);
    var step;
    match move {
      case AtProvider(p, leak) => n, more := ProviderMoveSeen(e, s, l, steps, start, p, leak); return;
      case AtConsumer(c) => n, more := ConsumerMoveSeen(e, s, l, steps, start, c); return;
      case Set(v) => step := L.SetData(v); SetSeen(e, s, l, v);
      case Deliver => step := L.Take; DeliverSeen(e, s, l);
      case Request => step := L.Answer; RequestSeen(e, s, l);
      case ForeignRequest(named, leak) => step := L.ForeignRequest(named, leak); AskedSeen(e, s, l, named, leak);
    }
    n, more := L.Next(l, step), steps + [step];
    R.Extended(l, steps, start, step);
  }

  lemma SeenChannels(e: Ends, s: Session, l: L.Link)
    requires SeenAs(e, s, l)
    ensures |l.toConsumer| == |s.toConsumer| && l.toProvider == s.toProvider && (l.registered <==> e.h in s.p.st.usable)
  {
    hide ConsumerAt, TookAt, Of, SourceAt;
  }
}

/** The remote objects a federate knows: the list and the index describe the same set, and discovery
    callbacks alternate between discovered and lost. */
module DORemotes {
  import opened Wrappers
  import opened DOModel
  import opened DORuns
  import opened DOInvariants

  ghost predicate Distinct(rs: seq<Remote>) {
    forall i, j :: 0 <= i < j < |rs| ==> rs[i].obj != rs[j].obj
  }

  /** The index holds exactly the listed remote objects, each listed once. */
  ghost predicate Agree(rs: seq<Remote>, index: map<Object, Remote>) {
    && Distinct(rs)
    && (forall x :: x in rs ==> x.obj in index && index[x.obj] == x)
    && (forall o :: o in index ==> index[o] in rs && index[o].obj == o)
  }

  /** The discovery callbacks about one source or target object: true for discovered, false for lost. */
  function Discoveries(events: seq<Event>, obj: Object, targets: bool): seq<bool> {
    if events == [] then [] else
      var n := |events| - 1;
      Discoveries(events[..n], obj, targets) + About(events[n], obj, targets)
  }

  function About(e: Event, obj: Object, targets: bool): seq<bool> {
    match e
    case Receive(_, _) => []
    case DiscoverSource(o) => if o == obj && !targets then [true] else []
    case LostSource(o) => if o == obj && !targets then [false] else []
    case DiscoverTarget(o) => if o == obj && targets then [true] else []
    case LostTarget(o) => if o == obj && targets then [false] else []
  }

  ghost predicate Alternates(bs: seq<bool>) {
    forall i :: 0 <= i < |bs| ==> bs[i] == (i % 2 == 0)
  }

  /** A known object with a discoverer for its connection type. */
  predicate Announced(index: map<Object, Remote>, discoverers: set<string>, obj: Object) {
    obj in index && index[obj].conn in discoverers
  }

  /** The callbacks about an object are discovered, lost, discovered, and so on; the last one is
      discovered exactly while the object is announced. */
  ghost predicate Alternate(events: seq<Event>, index: map<Object, Remote>, discoverers: set<string>, obj: Object,
      targets: bool) {
    var bs := Discoveries(events, obj, targets);
    Alternates(bs) && (|bs| % 2 == 1 <==> Announced(index, discoverers, obj))
  }

  ghost predicate Remotes(r: Run) {
    && Agree(r.st.remotes, r.st.remoteIndex) && Agree(r.st.remoteTargets, r.st.remoteTargetIndex)
    && (forall obj :: Alternate(r.events, r.st.remoteIndex, r.st.discoverers, obj, false))
    && (forall obj :: Alternate(r.events, r.st.remoteTargetIndex, r.st.discoverers, obj, true))
  }

  // ----- Lists and indices -----

  lemma AgreeAdded(rs: seq<Remote>, index: map<Object, Remote>, x: Remote)
    requires Agree(rs, index) && x.obj !in index
    ensures Agree(rs + [x], index[x.obj := x])
  {
    forall i | 0 <= i < |rs| ensures rs[i].obj != x.obj {
      assert rs[i] in rs;
    }
    assert forall y :: y in rs + [x] <==> y in rs || y == x;
  }

  lemma WithoutIndex(rs: seq<Remote>, i: nat)
    requires Distinct(rs) && i < |rs|
    ensures Distinct(rs[..i] + rs[i + 1..])
    ensures forall y :: y in rs[..i] + rs[i + 1..] <==> y in rs && y.obj != rs[i].obj
  {
    var x := rs[i];
    var a, b := rs[..i], rs[i + 1..];
    assert rs == a + [x] + b;
    forall y | y in rs && y.obj != x.obj ensures y in a + b {
      assert y in a || y in b;
    }
    forall y | y in a + b ensures y in rs && y.obj != x.obj {
      assert y in a || y in b;
    }
  }

  lemma AgreeRemoved(rs: seq<Remote>, index: map<Object, Remote>, i: nat)
    requires Agree(rs, index) && i < |rs|
    ensures Agree(rs[..i] + rs[i + 1..], index - {rs[i].obj})
  {
    hide Distinct;
    WithoutIndex(rs, i);
  }

  lemma FoundIffIndexed(rs: seq<Remote>, index: map<Object, Remote>, obj: Object)
    requires Agree(rs, index)
    ensures FindRemote(rs, obj).Some? <==> obj in index
    ensures FindRemote(rs, obj).Some? ==> rs[FindRemote(rs, obj).value] == index[obj]
  {
    if FindRemote(rs, obj).Some? {
      assert rs[FindRemote(rs, obj).value] in rs;
    }
  }

  // ----- Events -----

  lemma DiscoveriesConcat(a: seq<Event>, b: seq<Event>, obj: Object, targets: bool)
    ensures Discoveries(a + b, obj, targets) == Discoveries(a, obj, targets) + Discoveries(b, obj, targets)
  {
    hide About;
    if b == [] {
      assert a + b == a;
    } else {
      var n := |b| - 1;
      DiscoveriesConcat(a, b[..n], obj, targets);
      assert (a + b)[..|a| + n] == a + b[..n];
    }
  }

  lemma DiscoveriesOne(e: Event, obj: Object, targets: bool)
    ensures Discoveries([e], obj, targets) == About(e, obj, targets)
    ensures Discoveries([], obj, targets) == []
  {
    assert [e][..0] == [];
  }

  lemma NoDiscoveries(events: seq<Event>, obj: Object, targets: bool)
    requires forall e :: e in events ==> e.Receive?
    ensures Discoveries(events, obj, targets) == []
  {
  }

  lemma AlternateNext(events: seq<Event>, more: seq<Event>, index: map<Object, Remote>, index': map<Object, Remote>,
                      discoverers: set<string>, obj: Object, targets: bool)
    requires Alternate(events, index, discoverers, obj, targets)
    requires Discoveries(more, obj, targets) ==
      if Announced(index, discoverers, obj) == Announced(index', discoverers, obj) then []
        else [Announced(index', discoverers, obj)]
    ensures Alternate(events + more, index', discoverers, obj, targets)
  {
    hide Announced, Discoveries;
    DiscoveriesConcat(events, more, obj, targets);
  }

  // ----- Steps -----

  ghost predicate SameRemotes(a: State, b: State) {
    && a.remotes == b.remotes && a.remoteIndex == b.remoteIndex && a.remoteTargets == b.remoteTargets
    && a.remoteTargetIndex == b.remoteTargetIndex && a.discoverers == b.discoverers
  }

  predicate ForRemotes(step: Step) {
    step.SourceUpdate? || step.TargetUpdate? || step.SourceRemoved? || step.TargetRemoved? || step.ResetAll?
  }

  lemma ProcessKeepsRemotes(r: Run)
    requires Invariant(r)
    ensures SameRemotes(r.st, ProcessBuffers(r.st).st) && ProcessBuffers(r.st).events == []
  {
    UsableHaveObjects(r);
    hide Invariant, UpdatedLast, CreatedSources, CreatedTargets, WithCallbacks, Sendable, Unsendable, HasObject,
      CreateTargets, CreateSources, TransmitAll;
    ProcessSummary(r.st);
  }

  lemma UnregisterKeepsRemotes(st: State, h: Handle)
    ensures SameRemotes(st, UnregisterSource(st, h).st) && UnregisterSource(st, h).events == []
  {
    hide FindLocal, LocalHandles, RegisteredHandles, WithoutSource, WithoutRegistration;
  }

  lemma ReservedKeepsRemotes(st: State, uuid: Uuid, obj: Object)
    ensures SameRemotes(st, SourceReserved(st, uuid, obj).st) && SourceReserved(st, uuid, obj).events == []
  {
    hide FindUuid;
  }

  lemma OthersKeepRemotes(r: Run, step: Step)
    requires Invariant(r) && !ForRemotes(step)
    ensures SameRemotes(r.st, Operation(r.st, step).st) && Operation(r.st, step).events == []
  {
    hide Invariant, FindObject, ProcessBuffers, UnregisterSource, SourceReserved;
    if step.Process? {
      ProcessKeepsRemotes(r);
    } else if step.Unregister? {
      UnregisterKeepsRemotes(r.st, step.handle);
    } else if step.Reserved? {
      ReservedKeepsRemotes(r.st, step.uuid, step.obj);
    }
  }

  /** What a step does to the remote objects and says about them. */
  ghost predicate Moves(st: State, e: Effect) {
    && Agree(e.st.remotes, e.st.remoteIndex) && Agree(e.st.remoteTargets, e.st.remoteTargetIndex)
    && e.st.discoverers == st.discoverers
    && (forall obj :: Discoveries(e.events, obj, false) ==
          if Announced(st.remoteIndex, st.discoverers, obj) == Announced(e.st.remoteIndex, st.discoverers, obj) then []
          else [Announced(e.st.remoteIndex, st.discoverers, obj)])
    && (forall obj :: Discoveries(e.events, obj, true) ==
          if Announced(st.remoteTargetIndex, st.discoverers, obj) == Announced(e.st.remoteTargetIndex,
            st.discoverers, obj) then []
          else [Announced(e.st.remoteTargetIndex, st.discoverers, obj)])
  }

  lemma AnnouncedRemoved(index: map<Object, Remote>, discoverers: set<string>, obj: Object)
    ensures forall o :: Announced(index - {obj}, discoverers, o) <==> o != obj && Announced(index, discoverers, o)
  {
  }

  lemma SourceRemovedMoves(st: State, obj: Object)
    requires Agree(st.remotes, st.remoteIndex) && Agree(st.remoteTargets, st.remoteTargetIndex)
    ensures Moves(st, RemoveSourceObject(st, obj))
  {
    var e := RemoveSourceObject(st, obj);
    hide FindRemote;
    FoundIffIndexed(st.remotes, st.remoteIndex, obj);
    hide Agree;
    if obj in st.remoteIndex {
      var i, conn := FindRemote(st.remotes, obj).value, st.remoteIndex[obj].conn;
      AgreeRemoved(st.remotes, st.remoteIndex, i);
      assert e == Effect(st.(remotes := st.remotes[..i] + st.remotes[i + 1..],
        remoteIndex := st.remoteIndex - {obj}), [],
        if conn in st.discoverers then [LostSource(obj)] else []);
      AnnouncedRemoved(st.remoteIndex, st.discoverers, obj);
      assert Announced(st.remoteIndex, st.discoverers, obj) <==> conn in st.discoverers;
      hide RemoveSourceObject, Announced;
      forall o, targets ensures Discoveries(e.events, o, targets) == if conn in st.discoverers then
        About(LostSource(obj), o, targets) else [] {
        DiscoveriesOne(LostSource(obj), o, targets);
      }
      hide Discoveries;
    }
  }

  lemma TargetRemovedMoves(st: State, obj: Object)
    requires Agree(st.remotes, st.remoteIndex) && Agree(st.remoteTargets, st.remoteTargetIndex)
    ensures Moves(st, RemoveTargetObject(st, obj))
  {
    var e := RemoveTargetObject(st, obj);
    hide FindRemote;
    FoundIffIndexed(st.remoteTargets, st.remoteTargetIndex, obj);
    hide Agree;
    if obj in st.remoteTargetIndex {
      var i, conn := FindRemote(st.remoteTargets, obj).value, st.remoteTargetIndex[obj].conn;
      AgreeRemoved(st.remoteTargets, st.remoteTargetIndex, i);
      assert e == Effect(st.(remoteTargets := st.remoteTargets[..i] + st.remoteTargets[i + 1..],
        remoteTargetIndex := st.remoteTargetIndex - {obj}), [],
        if conn in st.discoverers then [LostTarget(obj)] else []);
      AnnouncedRemoved(st.remoteTargetIndex, st.discoverers, obj);
      assert Announced(st.remoteTargetIndex, st.discoverers, obj) <==> conn in st.discoverers;
      hide RemoveTargetObject, Announced;
      forall o, targets ensures Discoveries(e.events, o, targets) == if conn in st.discoverers then
        About(LostTarget(obj), o, targets) else [] {
        DiscoveriesOne(LostTarget(obj), o, targets);
      }
      hide Discoveries;
    }
  }

  lemma TargetUpdateMoves(st: State, obj: Object, identity: Option<(string, string)>)
    requires Agree(st.remotes, st.remoteIndex) && Agree(st.remoteTargets, st.remoteTargetIndex)
    ensures Moves(st, HandleTargetUpdate(st, obj, identity))
  {
    var e := HandleTargetUpdate(st, obj, identity);
    if obj in st.remoteTargetIndex || identity.None? {
      hide Agree;
    } else {
      AgreeAdded(st.remoteTargets, st.remoteTargetIndex, Remote(identity.value.0, identity.value.1, obj));
      hide Agree;
      forall o, targets ensures Discoveries(e.events, o, targets) == if e.events == [] then []
        else About(DiscoverTarget(obj), o, targets) {
        DiscoveriesOne(DiscoverTarget(obj), o, targets);
      }
    }
  }

  lemma KnownSourceUpdateMoves(st: State, obj: Object, attrs: Attributes)
    requires Agree(st.remotes, st.remoteIndex) && Agree(st.remoteTargets, st.remoteTargetIndex)
    requires attrs.identity.None? || obj in st.remoteIndex
    ensures Moves(st, HandleSourceUpdate(st, obj, attrs))
  {
    var e := HandleSourceUpdate(st, obj, attrs);
    assert e.st == st && forall x :: x in e.events ==> x.Receive?;
    hide Agree, Announced, HandleSourceUpdate, Discoveries;
    forall o, targets ensures Discoveries(e.events, o, targets) == [] {
      NoDiscoveries(e.events, o, targets);
    }
  }

  lemma DiscoveredFirst(conn: string, discoverers: set<string>, obj: Object, received: seq<Event>, o: Object,
      targets: bool)
    requires forall x :: x in received ==> x.Receive?
    ensures Discoveries((if conn in discoverers then [DiscoverSource(obj)] else []) + received, o, targets) ==
      if conn in discoverers then About(DiscoverSource(obj), o, targets) else []
  {
    hide Discoveries, About;
    NoDiscoveries(received, o, targets);
    DiscoveriesOne(DiscoverSource(obj), o, targets);
    DiscoveriesConcat(if conn in discoverers then [DiscoverSource(obj)] else [], received, o, targets);
  }

  lemma AnnouncedAdded(index: map<Object, Remote>, discoverers: set<string>, x: Remote)
    ensures forall o :: Announced(index[x.obj := x], discoverers, o) <==>
      if o == x.obj then x.conn in discoverers else Announced(index, discoverers, o)
  {
    forall o ensures Announced(index[x.obj := x], discoverers, o) <==>
      if o == x.obj then x.conn in discoverers else Announced(index, discoverers, o)
    {
      assert o != x.obj ==> (o in index[x.obj := x] <==> o in index);
    }
  }

  /** What a name update of an unknown source does. */
  lemma NewSourceUpdate(st: State, obj: Object, attrs: Attributes) returns (received: seq<Event>)
    requires attrs.identity.Some? && obj !in st.remoteIndex
    ensures var (name, conn) := attrs.identity.value;
      var x := Remote(name, conn, obj);
      var e := HandleSourceUpdate(st, obj, attrs);
      && e.st == st.(remotes := st.remotes + [x], remoteIndex := st.remoteIndex[obj := x])
      && e.events == (if conn in st.discoverers then [DiscoverSource(obj)] else []) + received
    ensures forall y :: y in received ==> y.Receive?
  {
    hide HasLocalTarget;
    var (name, conn) := attrs.identity.value;
    var e := HandleSourceUpdate(st, obj, attrs);
    var k := if conn in st.discoverers then 1 else 0;
    received := e.events[k..];
  }

  lemma NewSourceUpdateMoves(st: State, obj: Object, attrs: Attributes)
    requires Agree(st.remotes, st.remoteIndex) && Agree(st.remoteTargets, st.remoteTargetIndex)
    requires attrs.identity.Some? && obj !in st.remoteIndex
    ensures Moves(st, HandleSourceUpdate(st, obj, attrs))
  {
    var e := HandleSourceUpdate(st, obj, attrs);
    var (name, conn) := attrs.identity.value;
    assert !Announced(st.remoteIndex, st.discoverers, obj);
    hide Agree, HandleSourceUpdate, Discoveries, Announced;
    var received := NewSourceUpdate(st, obj, attrs);
    AgreeAdded(st.remotes, st.remoteIndex, Remote(name, conn, obj));
    AnnouncedAdded(st.remoteIndex, st.discoverers, Remote(name, conn, obj));
    forall o, targets ensures Discoveries(e.events, o, targets) == if conn in st.discoverers then
      About(DiscoverSource(obj), o, targets) else [] {
      DiscoveredFirst(conn, st.discoverers, obj, received, o, targets);
    }
  }

  lemma SourceUpdateMoves(st: State, obj: Object, attrs: Attributes)
    requires Agree(st.remotes, st.remoteIndex) && Agree(st.remoteTargets, st.remoteTargetIndex)
    ensures Moves(st, HandleSourceUpdate(st, obj, attrs))
  {
    hide Agree, Moves, HandleSourceUpdate;
    if attrs.identity.None? || obj in st.remoteIndex {
      KnownSourceUpdateMoves(st, obj, attrs);
    } else {
      NewSourceUpdateMoves(st, obj, attrs);
    }
  }

  lemma MovesKeep(r: Run, step: Step)
    requires Remotes(r) && !step.ResetAll? && Moves(r.st, Operation(r.st, step))
    ensures Remotes(Next(r, step))
  {
    var e, n := Operation(r.st, step), Next(r, step);
    assert n.st == e.st && n.events == r.events + e.events;
    hide Next, Operation, Agree, Discoveries, Announced, Alternate;
    forall obj
      ensures Alternate(n.events, n.st.remoteIndex, n.st.discoverers, obj, false)
      ensures Alternate(n.events, n.st.remoteTargetIndex, n.st.discoverers, obj, true)
    {
      assert Alternate(r.events, r.st.remoteIndex, r.st.discoverers, obj, false);
      assert Alternate(r.events, r.st.remoteTargetIndex, r.st.discoverers, obj, true);
      AlternateNext(r.events, e.events, r.st.remoteIndex, e.st.remoteIndex, r.st.discoverers, obj, false);
      AlternateNext(r.events, e.events, r.st.remoteTargetIndex, e.st.remoteTargetIndex, r.st.discoverers, obj, true);
    }
  }

  lemma RemotesStep(r: Run, step: Step)
    requires Remotes(r) && Invariant(r)
    ensures Remotes(Next(r, step))
  {
    var n := Next(r, step);
    if step.ResetAll? {
      assert n.st.remotes == [] && n.st.remoteTargets == [] && n.st.remoteIndex == map[]
        && n.st.remoteTargetIndex == map[] && n.events == [];
    } else if !ForRemotes(step) {
      OthersKeepRemotes(r, step);
      assert n.events == r.events + [];
      assert r.events + [] == r.events;
      hide Operation, Invariant, Agree, Alternate;
    } else {
      hide Next, Agree, Alternate, Invariant, Moves, HandleSourceUpdate, HandleTargetUpdate, RemoveSourceObject,
        RemoveTargetObject;
      if step.SourceUpdate? { SourceUpdateMoves(r.st, step.obj, step.attrs); }
      else if step.TargetUpdate? { TargetUpdateMoves(r.st, step.obj, step.identity); }
      else if step.SourceRemoved? { SourceRemovedMoves(r.st, step.obj); }
      else { TargetRemovedMoves(r.st, step.obj); }
      MovesKeep(r, step);
    }
  }

  /** In every reachable state the lists of remote sources and targets agree with their indices, and
      since the last reset a discoverer saw discover and lost strictly alternate per object. */
  lemma {:induction false} RemotesReached(r: Run, steps: seq<Step>, discoverers: set<string>)
    requires Reachable(r, steps, discoverers)
    ensures Remotes(r)
    decreases |steps|
  {
    if steps == [] {
      hide Reachable, Next, Enabled;
    } else {
      hide Invariant, Remotes, Enabled, Next, Start;
      var n := |steps| - 1;
      var q :| Reachable(q, steps[..n], discoverers) && Enabled(q, steps[n]) && r == Next(q, steps[n]);
      RemotesReached(q, steps[..n], discoverers);
      InvariantReached(q, steps[..n], discoverers);
      RemotesStep(q, steps[n]);
    }
  }

  // ----- The names of remote objects -----

  /** The name and connection type of the first update to name a source or target object since the last
      reset, or since the object was removed. */
  function NamedAs(steps: seq<Step>, obj: Object, targets: bool): Option<(string, string)> {
    if steps == [] then None else
      var n := |steps| - 1;
      NamedAfter(NamedAs(steps[..n], obj, targets), steps[n], obj, targets)
  }

  function NamedAfter(before: Option<(string, string)>, step: Step, obj: Object, targets: bool)
    : Option<(string, string)>
  {
    match step
    case ResetAll => None
    case SourceRemoved(o) => if o == obj && !targets then None else before
    case TargetRemoved(o) => if o == obj && targets then None else before
    case SourceUpdate(o, attrs) => if o == obj && !targets && before.None? then attrs.identity else before
    case TargetUpdate(o, identity) => if o == obj && targets && before.None? then identity else before
    case _ => before
  }

  function IdentityIn(index: map<Object, Remote>, obj: Object): Option<(string, string)> {
    if obj in index then Some((index[obj].name, index[obj].conn)) else None
  }

  lemma IndexAfterUpdates(st: State, step: Step)
    requires step.SourceUpdate? || step.TargetUpdate?
    ensures var n := Operation(st, step).st;
      && n.remoteIndex == (if step.SourceUpdate? && step.attrs.identity.Some? && step.obj !in st.remoteIndex then
           st.remoteIndex[step.obj := Remote(step.attrs.identity.value.0, step.attrs.identity.value.1, step.obj)]
         else st.remoteIndex)
      && n.remoteTargetIndex == (if step.TargetUpdate? && step.identity.Some? && step.obj !in st.remoteTargetIndex then
           st.remoteTargetIndex[step.obj := Remote(step.identity.value.0, step.identity.value.1, step.obj)]
         else st.remoteTargetIndex)
  {
    hide HasLocalTarget, RunCallback;
  }

  lemma SourceRemovedIndex(st: State, gone: Object)
    requires Agree(st.remotes, st.remoteIndex)
    ensures var n := RemoveSourceObject(st, gone).st;
      n.remoteIndex == st.remoteIndex - {gone} && n.remoteTargetIndex == st.remoteTargetIndex
  {
    hide FindRemote;
    FoundIffIndexed(st.remotes, st.remoteIndex, gone);
    hide Agree;
  }

  lemma TargetRemovedIndex(st: State, gone: Object)
    requires Agree(st.remoteTargets, st.remoteTargetIndex)
    ensures var n := RemoveTargetObject(st, gone).st;
      n.remoteIndex == st.remoteIndex && n.remoteTargetIndex == st.remoteTargetIndex - {gone}
  {
    hide FindRemote;
    FoundIffIndexed(st.remoteTargets, st.remoteTargetIndex, gone);
    hide Agree;
  }

  lemma IndexAfterRemovals(st: State, step: Step)
    requires step.SourceRemoved? || step.TargetRemoved?
    requires Agree(st.remotes, st.remoteIndex) && Agree(st.remoteTargets, st.remoteTargetIndex)
    ensures var n := Operation(st, step).st;
      && n.remoteIndex == (if step.SourceRemoved? then st.remoteIndex - {step.obj} else st.remoteIndex)
      && n.remoteTargetIndex == (if step.TargetRemoved? then st.remoteTargetIndex - {step.obj}
         else st.remoteTargetIndex)
  {
    hide Agree, RemoveSourceObject, RemoveTargetObject;
    SourceRemovedIndex(st, step.obj);
    TargetRemovedIndex(st, step.obj);
  }

  lemma OthersName(before: Option<(string, string)>, step: Step, obj: Object, targets: bool)
    requires !ForRemotes(step)
    ensures NamedAfter(before, step, obj, targets) == before
  {
  }

  lemma NamesOther(r: Run, step: Step, obj: Object)
    requires Invariant(r) && !ForRemotes(step)
    ensures var n := Operation(r.st, step);
      && IdentityIn(n.st.remoteIndex, obj) == NamedAfter(IdentityIn(r.st.remoteIndex, obj), step, obj, false)
      && IdentityIn(n.st.remoteTargetIndex, obj) == NamedAfter(IdentityIn(r.st.remoteTargetIndex, obj), step, obj, true)
  {
    hide Invariant, Operation, NamedAfter, IdentityIn, ForRemotes;
    OthersKeepRemotes(r, step);
    OthersName(IdentityIn(r.st.remoteIndex, obj), step, obj, false);
    OthersName(IdentityIn(r.st.remoteTargetIndex, obj), step, obj, true);
  }

  lemma NamesStep(r: Run, step: Step, obj: Object)
    requires Invariant(r) && Remotes(r)
    ensures var n := Next(r, step);
      && IdentityIn(n.st.remoteIndex, obj) == NamedAfter(IdentityIn(r.st.remoteIndex, obj), step, obj, false)
      && IdentityIn(n.st.remoteTargetIndex, obj) == NamedAfter(IdentityIn(r.st.remoteTargetIndex, obj), step, obj, true)
  {
    assert Next(r, step).st == Operation(r.st, step).st;
    if !ForRemotes(step) {
      hide Invariant, Remotes, Operation, Next, NamedAfter, IdentityIn;
      NamesOther(r, step, obj);
    } else if step.ResetAll? {
      hide Invariant, Remotes, SavedLast;
    } else {
      BothAgree(r);
      hide Invariant, Remotes, Agree, Next, Operation;
      if step.SourceUpdate? || step.TargetUpdate? {
        IndexAfterUpdates(r.st, step);
      } else {
        IndexAfterRemovals(r.st, step);
      }
    }
  }

  /** In every run a remote source or target is known exactly if an update named it since the last reset or
      its removal, and then it is listed under the name and connection type of the first such update. */
  lemma {:induction false} KnownAsNamed(r: Run, steps: seq<Step>, discoverers: set<string>, obj: Object)
    requires Reachable(r, steps, discoverers)
    ensures NamedAs(steps, obj, false) == IdentityIn(r.st.remoteIndex, obj)
    ensures NamedAs(steps, obj, true) == IdentityIn(r.st.remoteTargetIndex, obj)
    ensures Agree(r.st.remotes, r.st.remoteIndex) && Agree(r.st.remoteTargets, r.st.remoteTargetIndex)
    decreases |steps|
  {
    hide Invariant, Remotes, Enabled, Next, NamedAfter, Agree;
    RemotesReached(r, steps, discoverers);
    assert Agree(r.st.remotes, r.st.remoteIndex) && Agree(r.st.remoteTargets, r.st.remoteTargetIndex) by {
      BothAgree(r);
    }
    if steps != [] {
      var n := |steps| - 1;
      var q :| Reachable(q, steps[..n], discoverers) && Enabled(q, steps[n]) && r == Next(q, steps[n]);
      KnownAsNamed(q, steps[..n], discoverers, obj);
      InvariantReached(q, steps[..n], discoverers);
      RemotesReached(q, steps[..n], discoverers);
      hide IdentityIn;
      NamesStep(q, steps[n], obj);
    }
  }

  lemma BothAgree(r: Run)
    requires Remotes(r)
    ensures Agree(r.st.remotes, r.st.remoteIndex) && Agree(r.st.remoteTargets, r.st.remoteTargetIndex)
  {
    hide Agree;
  }

  lemma DiscoverersStep(r: Run, step: Step)
    requires Invariant(r)
    ensures Next(r, step).st.discoverers == r.st.discoverers
  {
    if !ForRemotes(step) {
      hide Invariant, Operation;
      OthersKeepRemotes(r, step);
    } else {
      hide Invariant, SavedLast, FindRemote, HasLocalTarget, RunCallback;
    }
  }

  /** No step changes who is told about discoveries, so after a reset the discoverers are told again. */
  lemma {:induction false} DiscoverersStay(r: Run, steps: seq<Step>, discoverers: set<string>)
    requires Reachable(r, steps, discoverers)
    ensures r.st.discoverers == discoverers
    decreases |steps|
  {
    if steps != [] {
      hide Invariant, Enabled, Next;
      var n := |steps| - 1;
      var q :| Reachable(q, steps[..n], discoverers) && Enabled(q, steps[n]) && r == Next(q, steps[n]);
      DiscoverersStay(q, steps[..n], discoverers);
      InvariantReached(q, steps[..n], discoverers);
      DiscoverersStep(q, steps[n]);
    }
  }
}

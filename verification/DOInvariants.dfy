/** The invariants of the source side of the distributed-object service hold in every reachable
    state, and what they say about a reset. */
module DOInvariants {
  import opened Wrappers
  import opened DOModel
  import opened DORuns

  // ----- Steps that leave the sources alone -----

  ghost predicate SameSources(a: State, b: State) {
    && a.persistent == b.persistent && a.buffered == b.buffered && a.locals == b.locals && a.usable == b.usable
    && a.transmits == b.transmits && a.nextSource == b.nextSource && a.nextUuid == b.nextUuid && a.phase == b.phase
  }

  predicate ForSources(step: Step) {
    || step.EnterInitFederate? || step.Join? || step.GoOnline? || step.ResetAll? || step.Register?
    || step.Unregister? || step.Submit? || step.Process? || step.Reserved?
  }

  lemma OthersKeepSources(st: State, step: Step)
    requires !ForSources(step)
    ensures SameSources(st, Operation(st, step).st)
  {
    hide RunCallback, HasLocalTarget, FindRemote, FindObject;
  }

  // ----- The partition -----

  lemma Appended(rs: seq<SourceRegistration>, p: SourceRegistration)
    requires DistinctRegistrations(rs) && p.handle !in RegisteredHandles(rs)
    ensures DistinctRegistrations(rs + [p])
    ensures RegisteredHandles(rs + [p]) == RegisteredHandles(rs) + {p.handle}
  {
    RegisteredConcat(rs, [p]);
    assert forall i :: 0 <= i < |rs| ==> rs[i] in rs;
  }

  lemma RegisterPartition(r: Run, name: string, conn: string)
    requires Partition(r) && Identified(r) && SubView(r) && Enabled(r, Register(name, conn))
    ensures Partition(Next(r, Register(name, conn)))
  {
    var p := SourceRegistration(name, conn, r.st.nextSource, []);
    var n := Next(r, Register(name, conn));
    assert n.st.persistent == r.st.persistent + [p] && n.st.locals == r.st.locals;
    assert n.st.buffered == if r.joined then r.st.buffered + [p] else r.st.buffered;
    assert n.issued.Keys == r.issued.Keys + {p.handle} && p.handle !in r.issued;
    assert n.joined == r.joined && n.unregistered == r.unregistered;
    hide Next, Identified, SubView, Enabled, DistinctRegistrations, DistinctLocals, RegisteredHandles, LocalHandles;
    Appended(r.st.persistent, p);
    if r.joined {
      Appended(r.st.buffered, p);
    }
  }

  lemma UnregisterPartition(r: Run, h: Handle)
    requires Partition(r)
    ensures Partition(Next(r, Unregister(h)))
  {
    var n := Next(r, Unregister(h));
    assert n.issued == r.issued && n.joined == r.joined;
    assert n.unregistered == if h in RegisteredHandles(r.st.persistent) then r.unregistered + {h} else r.unregistered;
    if h in RegisteredHandles(r.st.persistent) {
      assert n.st.persistent == WithoutRegistration(r.st.persistent, h);
      assert n.st.buffered == if h in RegisteredHandles(r.st.buffered) then WithoutRegistration(r.st.buffered, h)
        else r.st.buffered;
      assert n.st.locals == if h in RegisteredHandles(r.st.buffered) || h !in LocalHandles(r.st.locals) then
        r.st.locals else WithoutSource(r.st.locals, h);
      hide Next, DistinctRegistrations, DistinctLocals, RegisteredHandles, LocalHandles, WithoutRegistration,
        WithoutSource;
      WithoutRegistrationHandles(r.st.persistent, h);
      if h in RegisteredHandles(r.st.buffered) {
        WithoutRegistrationHandles(r.st.buffered, h);
      } else if h in LocalHandles(r.st.locals) {
        WithoutSourceHandles(r.st.locals, h);
      }
    } else {
      assert n.st.persistent == r.st.persistent && n.st.buffered == r.st.buffered && n.st.locals == r.st.locals;
      hide Next, Divided, DistinctRegistrations, DistinctLocals;
    }
  }

  lemma NoHandles(rs: seq<SourceRegistration>, ss: seq<Source>)
    ensures RegisteredHandles(rs) == {} ==> rs == []
    ensures LocalHandles(ss) == {} ==> ss == []
  {
    assert rs != [] ==> rs[0].handle in RegisteredHandles(rs);
    assert ss != [] ==> ss[0].handle in LocalHandles(ss);
  }

  lemma JoinPartition(r: Run)
    requires Partition(r) && Enabled(r, Join)
    ensures Partition(Next(r, Join))
  {
    var n := Next(r, Join);
    NoHandles(r.st.buffered, r.st.locals);
    assert n.st.buffered == r.st.persistent && n.st.persistent == r.st.persistent && n.st.locals == [];
    assert n.issued == r.issued && n.unregistered == r.unregistered && n.joined;
    hide Next, DistinctRegistrations;
  }

  lemma ResetPartition(r: Run)
    requires Partition(r)
    ensures Partition(Next(r, ResetAll))
  {
    var n := Next(r, ResetAll);
    assert n.st.persistent == SavedLast(r.st.persistent, r.st.locals, r.st.usable) && n.st.buffered == []
      && n.st.locals == [];
    assert n.issued == r.issued && n.unregistered == r.unregistered && !n.joined;
    hide Next;
    SameHandles(r.st.persistent, n.st.persistent);
  }

  lemma SameHandles(a: seq<SourceRegistration>, b: seq<SourceRegistration>)
    requires |a| == |b| && forall i :: 0 <= i < |a| ==> a[i].handle == b[i].handle
    ensures RegisteredHandles(a) == RegisteredHandles(b)
    ensures DistinctRegistrations(a) == DistinctRegistrations(b)
  {
    forall h ensures h in RegisteredHandles(a) <==> h in RegisteredHandles(b) {
      if h in RegisteredHandles(a) {
        var i :| 0 <= i < |a| && a[i].handle == h;
        assert b[i] in b;
      }
      if h in RegisteredHandles(b) {
        var i :| 0 <= i < |b| && b[i].handle == h;
        assert a[i] in a;
      }
    }
  }

  ghost predicate SameIdentities(a: seq<Source>, b: seq<Source>) {
    && |a| == |b|
    && forall i :: 0 <= i < |a| ==>
      a[i].handle == b[i].handle && a[i].uuid == b[i].uuid && a[i].name == b[i].name && a[i].conn == b[i].conn
  }

  lemma SameLocalHandles(a: seq<Source>, b: seq<Source>)
    requires SameIdentities(a, b)
    ensures LocalHandles(a) == LocalHandles(b)
    ensures DistinctLocals(a) == DistinctLocals(b)
  {
    forall h ensures h in LocalHandles(a) <==> h in LocalHandles(b) {
      if h in LocalHandles(a) {
        var i :| 0 <= i < |a| && a[i].handle == h;
        assert b[i] in b;
      }
      if h in LocalHandles(b) {
        var i :| 0 <= i < |b| && b[i].handle == h;
        assert a[i] in a;
      }
    }
  }

  lemma ReservedPartition(r: Run, uuid: Uuid, obj: Object)
    requires Partition(r)
    ensures Partition(Next(r, Reserved(uuid, obj)))
  {
    var n := Next(r, Reserved(uuid, obj));
    assert n.st.persistent == r.st.persistent && n.st.buffered == r.st.buffered
      && SameIdentities(r.st.locals, n.st.locals);
    assert n.issued == r.issued && n.unregistered == r.unregistered && n.joined == r.joined;
    hide Next, SameIdentities, DistinctRegistrations, DistinctLocals, RegisteredHandles, LocalHandles;
    SameLocalHandles(r.st.locals, n.st.locals);
  }

  lemma CreatedHandles(ls: seq<Source>, rs: seq<SourceRegistration>, uuid: Uuid)
    requires DistinctLocals(ls) && DistinctRegistrations(rs) && RegisteredHandles(rs) !! LocalHandles(ls)
    requires forall s :: s in ls ==> s.uuid < uuid
    ensures DistinctLocals(ls + CreatedSources(rs, uuid))
    ensures LocalHandles(ls + CreatedSources(rs, uuid)) == LocalHandles(ls) + RegisteredHandles(rs)
  {
    var cs := CreatedSources(rs, uuid);
    forall h ensures h in LocalHandles(cs) <==> h in RegisteredHandles(rs) {
      if h in LocalHandles(cs) {
        var i :| 0 <= i < |cs| && cs[i].handle == h;
        assert rs[i] in rs;
      }
      if h in RegisteredHandles(rs) {
        var i :| 0 <= i < |rs| && rs[i].handle == h;
        assert cs[i] in cs;
      }
    }
    LocalConcat(ls, cs);
    forall i, j | 0 <= i < |ls| && 0 <= j < |cs| ensures ls[i].handle != cs[j].handle && ls[i].uuid != cs[j].uuid {
      assert ls[i] in ls && rs[j] in rs;
      assert ls[i].handle in LocalHandles(ls) && rs[j].handle in RegisteredHandles(rs);
    }
  }

  /** What the sources look like after processing the buffers. */
  ghost function ProcessedLocals(st: State): seq<Source> {
    UpdatedLast(st.locals + CreatedSources(st.buffered, st.nextUuid + |st.bufferedTargets|),
      Sendable(st.usable, st.transmits))
  }

  lemma UsableHaveObjects(r: Run)
    requires Partition(r) && SubView(r)
    ensures forall h :: h in r.st.usable ==> HasObject(r.st.locals, h)
  {
    hide Partition;
    forall h | h in r.st.usable ensures HasObject(r.st.locals, h) {
      assert h in LocalHandles(r.st.locals);
      assert FindLocal(r.st.locals, h).value in r.st.locals;
    }
  }

  lemma Processed(r: Run)
    requires Partition(r) && SubView(r)
    ensures var n := Next(r, Process);
      && n.st.persistent == r.st.persistent && n.st.buffered == [] && n.st.locals == ProcessedLocals(r.st)
      && n.st.usable == r.st.usable && n.st.transmits == Unsendable(r.st.usable, r.st.transmits)
      && n.st.nextSource == r.st.nextSource && n.st.phase == r.st.phase
      && n.st.nextUuid == r.st.nextUuid + |r.st.bufferedTargets| + |r.st.buffered|
      && n.issued == r.issued && n.unregistered == r.unregistered && n.joined == r.joined
      && n.submitted == r.submitted && n.sent == r.sent + Sendable(r.st.usable, r.st.transmits) && n.before == r.before
      && (forall h :: h in r.st.usable ==> HasObject(r.st.locals, h))
  {
    UsableHaveObjects(r);
    hide SubView, Partition, ProcessBuffers, HasObject, UpdatedLast, CreatedSources, CreatedTargets, WithCallbacks,
      Sendable, Unsendable;
    ProcessSummary(r.st);
  }

  lemma UpdatedIdentities(ss: seq<Source>, sent: seq<Transmit>)
    ensures SameIdentities(ss, UpdatedLast(ss, sent))
  {
    hide Of, LastOf;
  }

  lemma ProcessedHandles(st: State)
    requires DistinctLocals(st.locals) && DistinctRegistrations(st.buffered)
    requires RegisteredHandles(st.buffered) !! LocalHandles(st.locals)
    requires forall s :: s in st.locals ==> s.uuid < st.nextUuid
    ensures DistinctLocals(ProcessedLocals(st))
    ensures LocalHandles(ProcessedLocals(st)) == LocalHandles(st.locals) + RegisteredHandles(st.buffered)
  {
    var uuid := st.nextUuid + |st.bufferedTargets|;
    var ss := st.locals + CreatedSources(st.buffered, uuid);
    hide UpdatedLast, CreatedSources, DistinctLocals, DistinctRegistrations, RegisteredHandles, LocalHandles,
      Sendable, SameIdentities;
    CreatedHandles(st.locals, st.buffered, uuid);
    UpdatedIdentities(ss, Sendable(st.usable, st.transmits));
    SameLocalHandles(ss, ProcessedLocals(st));
  }

  lemma ProcessPartition(r: Run)
    requires Partition(r) && SubView(r) && Enabled(r, Process)
    ensures Partition(Next(r, Process))
  {
    assert r.joined;
    assert forall s :: s in r.st.locals ==> s.uuid < r.st.nextUuid;
    hide Next, SubView, Enabled, ProcessedLocals, DistinctLocals, DistinctRegistrations, RegisteredHandles,
      LocalHandles, Sendable, Unsendable, HasObject;
    ProcessedHandles(r.st);
    Processed(r);
    NothingBuffered();
  }

  lemma NothingBuffered()
    ensures RegisteredHandles([]) == {} && DistinctRegistrations([]) && LocalHandles([]) == {} && DistinctLocals([])
  {
  }

  // ----- Who is among the processed sources -----

  lemma ProcessedMember(st: State, s: Source) returns (l: Source)
    requires s in ProcessedLocals(st)
    ensures l in st.locals + CreatedSources(st.buffered, st.nextUuid + |st.bufferedTargets|)
    ensures s == Updated(l, Sendable(st.usable, st.transmits))
  {
    hide Updated, CreatedSources, Sendable;
    var ss := st.locals + CreatedSources(st.buffered, st.nextUuid + |st.bufferedTargets|);
    var i :| 0 <= i < |ss| && ProcessedLocals(st)[i] == s;
    l := ss[i];
  }

  lemma CreatedMember(rs: seq<SourceRegistration>, uuid: Uuid, l: Source) returns (q: SourceRegistration)
    requires l in CreatedSources(rs, uuid)
    ensures q in rs && l.obj.None? && uuid <= l.uuid < uuid + |rs|
    ensures q == SourceRegistration(l.name, l.conn, l.handle, l.last)
  {
    var i :| 0 <= i < |rs| && CreatedSources(rs, uuid)[i] == l;
    q := rs[i];
  }

  // ----- Names -----

  lemma {:induction false} IdentifiedProcess(r: Run)
    requires Partition(r) && SubView(r) && Identified(r)
    ensures Identified(Next(r, Process))
  {
    hide Partition, SubView, Next, ProcessedLocals, CreatedSources, Sendable, Unsendable, HasObject, Of, LastOf;
    Processed(r);
    forall s | s in ProcessedLocals(r.st) ensures s.handle in r.issued && r.issued[s.handle] == (s.name, s.conn) {
      var l := ProcessedMember(r.st, s);
      if l !in r.st.locals {
        var q := CreatedMember(r.st.buffered, r.st.nextUuid + |r.st.bufferedTargets|, l);
      }
    }
  }

  /** What unregistering leaves is among what was there. */
  lemma Unregistered(r: Run, h: Handle)
    requires Partition(r)
    ensures var n := Next(r, Unregister(h));
      && (forall p :: p in n.st.persistent ==> p in r.st.persistent && p.handle != h)
      && (forall p :: p in n.st.buffered ==> p in r.st.buffered)
      && (forall s :: s in n.st.locals ==> s in r.st.locals)
      && (n.st.usable == r.st.usable || (n.st.usable == r.st.usable - {h}
        && n.st.locals == WithoutSource(r.st.locals, h)))
      && n.issued == r.issued && n.before == r.before && n.sent == r.sent && n.submitted == r.submitted
        && n.joined == r.joined
      && n.st.nextSource == r.st.nextSource && n.st.transmits == r.st.transmits && n.st.phase == r.st.phase
        && n.st.nextUuid == r.st.nextUuid
  {
    hide LocalHandles, WithoutRegistration, WithoutSource, DistinctLocals, DistinctRegistrations, Sendable;
    WithoutRegistrationHandles(r.st.persistent, h);
    if h in RegisteredHandles(r.st.buffered) { WithoutRegistrationHandles(r.st.buffered, h); }
    WithoutSourceHandles(r.st.locals, h);
  }

  lemma IdentifiedUnregister(r: Run, h: Handle)
    requires Partition(r) && Identified(r)
    ensures Identified(Next(r, Unregister(h)))
  {
    hide Next, Partition;
    Unregistered(r, h);
  }

  lemma IdentifiedReset(r: Run)
    requires Identified(r)
    ensures Identified(Next(r, ResetAll))
  {
    hide LocalHandles, FindLocal, Sendable;
  }

  lemma IdentifiedRegister(r: Run, name: string, conn: string)
    requires Identified(r)
    ensures Identified(Next(r, Register(name, conn)))
  {
    hide Sendable;
  }

  lemma IdentifiedOther(r: Run, step: Step)
    requires Identified(r) && (!ForSources(step) || step.Submit? || step.EnterInitFederate? || step.GoOnline?
      || step.Join? || step.Reserved?)
    ensures Identified(Next(r, step))
  {
    hide Sendable;
    if !ForSources(step) {
      OthersKeepSources(r.st, step);
      hide Operation;
    }
  }

  // ----- The map from handles to sources -----

  lemma SubViewUnregister(r: Run, h: Handle)
    requires Partition(r) && SubView(r)
    ensures SubView(Next(r, Unregister(h)))
  {
    assert DistinctLocals(r.st.locals);
    hide Next, Partition, LocalHandles, DistinctLocals, WithoutSource;
    Unregistered(r, h);
    WithoutSourceHandles(r.st.locals, h);
    SubViewLocals(r, h);
  }

  lemma SubViewLocals(r: Run, h: Handle)
    requires Partition(r)
    ensures Next(r, Unregister(h)).st.usable == r.st.usable ==>
      Next(r, Unregister(h)).st.locals == r.st.locals || h !in r.st.usable
  {
    hide LocalHandles, WithoutRegistration, WithoutSource, DistinctLocals, DistinctRegistrations, Sendable;
  }

  lemma ProcessedViewed(st: State, s: Source)
    requires RegisteredHandles(st.buffered) !! st.usable && s in ProcessedLocals(st)
    requires forall x :: x in st.locals ==> x.uuid < st.nextUuid && (x.handle in st.usable <==> x.obj.Some?)
    ensures s.uuid < st.nextUuid + |st.bufferedTargets| + |st.buffered|
    ensures s.handle in st.usable <==> s.obj.Some?
  {
    hide CreatedSources, Sendable, ProcessedLocals, LastOf, Of;
    var l := ProcessedMember(st, s);
    if l !in st.locals {
      var q := CreatedMember(st.buffered, st.nextUuid + |st.bufferedTargets|, l);
      assert l.handle in RegisteredHandles(st.buffered);
    }
  }

  lemma SubViewProcess(r: Run)
    requires Partition(r) && SubView(r)
    ensures SubView(Next(r, Process))
  {
    assert RegisteredHandles(r.st.buffered) !! r.st.usable;
    assert DistinctLocals(r.st.locals) && DistinctRegistrations(r.st.buffered)
      && RegisteredHandles(r.st.buffered) !! LocalHandles(r.st.locals);
    hide Partition, Next, ProcessedLocals, Sendable, Unsendable, HasObject, LocalHandles, RegisteredHandles,
      DistinctLocals, DistinctRegistrations;
    forall s | s in ProcessedLocals(r.st)
      ensures s.uuid < r.st.nextUuid + |r.st.bufferedTargets| + |r.st.buffered|
      ensures s.handle in r.st.usable <==> s.obj.Some?
    {
      ProcessedViewed(r.st, s);
    }
    ProcessedHandles(r.st);
    Processed(r);
  }

  /** The local sources in the map are those with an object. */
  ghost predicate Viewed(locals: seq<Source>, usable: set<Handle>, uuid: Uuid) {
    && (forall s :: s in locals ==> s.uuid < uuid)
    && (forall s :: s in locals ==> (s.handle in usable <==> s.obj.Some?))
    && usable <= LocalHandles(locals)
  }

  lemma ViewedReserved(locals: seq<Source>, usable: set<Handle>, uuid: Uuid, i: nat, obj: Object)
    requires Viewed(locals, usable, uuid) && DistinctLocals(locals) && i < |locals|
    ensures Viewed(locals[i := locals[i].(obj := Some(obj))], usable + {locals[i].handle}, uuid)
  {
    var next := locals[i := locals[i].(obj := Some(obj))];
    assert SameIdentities(locals, next);
    SameLocalHandles(locals, next);
    assert locals[i] in locals && locals[i].handle in LocalHandles(locals);
    hide LocalHandles, SameIdentities;
    forall x | x in next ensures x.uuid < uuid && (x.handle in usable + {locals[i].handle} <==> x.obj.Some?) {
      var j :| 0 <= j < |locals| && next[j] == x;
      assert locals[j] in locals;
    }
  }

  lemma SubViewReserved(r: Run, uuid: Uuid, obj: Object)
    requires Partition(r) && SubView(r)
    ensures SubView(Next(r, Reserved(uuid, obj)))
  {
    var n := Next(r, Reserved(uuid, obj));
    assert DistinctLocals(r.st.locals) && Viewed(r.st.locals, r.st.usable, r.st.nextUuid);
    assert n.st.nextUuid == r.st.nextUuid && n.st.phase == r.st.phase && n.joined == r.joined;
    hide Partition, LocalHandles, DistinctLocals;
    match FindUuid(r.st.locals, uuid)
    case None =>
    case Some(i) =>
      assert n.st.locals == r.st.locals[i := r.st.locals[i].(obj := Some(obj))]
        && n.st.usable == r.st.usable + {r.st.locals[i].handle};
      ViewedReserved(r.st.locals, r.st.usable, r.st.nextUuid, i, obj);
      assert Viewed(n.st.locals, n.st.usable, n.st.nextUuid);
      hide Next, FindUuid;
  }

  lemma SubViewOther(r: Run, step: Step)
    requires Partition(r) && SubView(r) && Enabled(r, step) && !step.Process? && !step.Reserved? && !step.Unregister?
    ensures SubView(Next(r, step))
  {
    NoHandles(r.st.buffered, r.st.locals);
    hide Partition, Sendable, LocalHandles, SavedLast;
    if !ForSources(step) {
      OthersKeepSources(r.st, step);
      hide Operation;
    }
  }

  // ----- Conservation of transmissions -----

  lemma ConservedProcess(r: Run)
    requires Partition(r) && SubView(r) && Conserved(r)
    ensures Conserved(Next(r, Process))
  {
    hide Next, Partition, SubView, ProcessedLocals, Of, Sendable, Unsendable, HasObject;
    Processed(r);
    var usable, ts := r.st.usable, r.st.transmits;
    forall h ensures Of(r.sent + Sendable(usable, ts), h) + Of(Unsendable(usable, ts), h) == Of(r.submitted, h) {
      OfConcat(r.sent, Sendable(usable, ts), h);
      OfSplit(usable, ts, h);
      assert Of(r.sent, h) + Of(ts, h) == Of(r.submitted, h);
      assert Of(r.sent, h) + [] == Of(r.sent, h);
      assert Of(ts, h) + [] == Of(ts, h);
    }
  }

  lemma ConservedSubmit(r: Run, t: Transmit)
    requires Conserved(r)
    ensures Conserved(Next(r, Submit(t.handle, t.data)))
  {
    var n := Next(r, Submit(t.handle, t.data));
    assert n.st.transmits == r.st.transmits + [t] && n.submitted == r.submitted + [t] && n.sent == r.sent;
    hide Next, Of;
    forall h ensures Of(n.sent, h) + Of(n.st.transmits, h) == Of(n.submitted, h) {
      assert Of(r.sent, h) + Of(r.st.transmits, h) == Of(r.submitted, h);
      OfSnoc(r.st.transmits, t, h);
      OfSnoc(r.submitted, t, h);
    }
  }

  lemma ConservedOther(r: Run, step: Step)
    requires Conserved(r) && !step.Process? && !step.Submit?
    ensures Conserved(Next(r, step))
  {
    var n := Next(r, step);
    hide Sendable, FindUuid, FindLocal, LocalHandles, RegisteredHandles, SavedLast, WithoutSource, WithoutRegistration;
    if step.ResetAll? {
      assert n.st.transmits == [] && n.submitted == [] && n.sent == [];
    } else {
      if !ForSources(step) { OthersKeepSources(r.st, step); hide Operation; }
      assert n.st.transmits == r.st.transmits && n.submitted == r.submitted && n.sent == r.sent;
    }
  }

  // ----- Last data -----

  lemma OfAbsent(ts: seq<Transmit>, h: Handle)
    requires forall t :: t in ts ==> t.handle != h
    ensures Of(ts, h) == [] && LastOf(ts, h) == []
  {
    if ts != [] { OfAbsent(ts[..|ts| - 1], h); }
  }

  lemma SendableMembers(usable: set<Handle>, ts: seq<Transmit>)
    ensures forall t :: t in Sendable(usable, ts) ==> t in ts && t.handle in usable
    ensures forall t :: t in Unsendable(usable, ts) ==> t in ts
  {
  }

  /** A source processed holds what its registration and the payloads handed over since say. */
  lemma HeldStep(p: SourceRegistration, l: Source, sent: seq<Transmit>, now: seq<Transmit>)
    requires p.handle == l.handle && l.last == Holds(p, sent)
    ensures Updated(l, now).last == Holds(p, sent + now)
  {
    hide Of, LastOf;
    OfConcat(sent, now, p.handle);
    LastOfConcat(sent, now, p.handle);
    assert Of(sent, p.handle) + [] == Of(sent, p.handle);
  }

  lemma HeldProcessed(r: Run, p: SourceRegistration, s: Source)
    requires Partition(r) && SubView(r) && LastHeld(r)
    requires p in r.st.persistent && s in ProcessedLocals(r.st) && p.handle == s.handle
    ensures s.last == Holds(p, r.sent + Sendable(r.st.usable, r.st.transmits))
  {
    assert RegisteredHandles(r.st.buffered) !! r.st.usable;
    hide Partition, SubView, ProcessedLocals, CreatedSources, Sendable, LastOf, Of;
    var l := ProcessedMember(r.st, s);
    if l in r.st.locals {
    } else {
      var q := CreatedMember(r.st.buffered, r.st.nextUuid + |r.st.bufferedTargets|, l);
      assert q.handle in RegisteredHandles(r.st.buffered);
      assert q.last == p.last && Of(r.sent, p.handle) == [];
    }
    HeldStep(p, l, r.sent, Sendable(r.st.usable, r.st.transmits));
  }

  lemma LastHeldProcess(r: Run)
    requires Partition(r) && SubView(r) && Identified(r) && LastHeld(r)
    ensures LastHeld(Next(r, Process))
  {
    forall h | h in r.st.usable ensures h in r.issued {
      var s :| s in r.st.locals && s.handle == h;
    }
    var now := Sendable(r.st.usable, r.st.transmits);
    forall p, s | p in r.st.persistent && s in ProcessedLocals(r.st) && p.handle == s.handle
      ensures s.last == Holds(p, r.sent + now) {
      HeldProcessed(r, p, s);
    }
    hide Next, Partition, SubView, Identified, Holds, ProcessedLocals, Of, Sendable, Unsendable, HasObject;
    Processed(r);
    SendableMembers(r.st.usable, r.st.transmits);
    forall p | p in r.st.persistent && p.handle !in r.st.usable ensures Of(r.sent + now, p.handle) == [] {
      OfConcat(r.sent, now, p.handle);
      OfSplit(r.st.usable, r.st.transmits, p.handle);
    }
  }

  lemma LastHeldUnregister(r: Run, h: Handle)
    requires Partition(r) && LastHeld(r)
    ensures LastHeld(Next(r, Unregister(h)))
  {
    hide Next, Partition, Holds, Of;
    Unregistered(r, h);
  }

  lemma LastHeldRegister(r: Run, name: string, conn: string)
    requires Identified(r) && LastHeld(r)
    ensures LastHeld(Next(r, Register(name, conn)))
  {
    var n, h := Next(r, Register(name, conn)), r.st.nextSource;
    var p := SourceRegistration(name, conn, h, []);
    assert n.st.persistent == r.st.persistent + [p] && (n.st.buffered == r.st.buffered + [p]
      || n.st.buffered == r.st.buffered);
    assert n.st.locals == r.st.locals && n.before == r.before && n.sent == r.sent && n.st.usable == r.st.usable;
    assert forall x :: x in r.issued ==> x in n.issued && x != h;
    hide Next, Holds, Of;
    OfAbsent(r.sent, h);
  }

  lemma LastHeldReset(r: Run)
    requires LastHeld(r)
    ensures LastHeld(Next(r, ResetAll))
  {
    hide Sendable, SavedLast, FindLocal, LocalHandles;
    assert (r.before + r.sent) + [] == r.before + r.sent;
  }

  lemma LastHeldReserved(r: Run, uuid: Uuid, obj: Object)
    requires LastHeld(r)
    ensures LastHeld(Next(r, Reserved(uuid, obj)))
  {
    var n := Next(r, Reserved(uuid, obj));
    match FindUuid(r.st.locals, uuid)
    case None =>
    case Some(i) =>
      var s := r.st.locals[i].(obj := Some(obj));
      assert n.st == r.st.(locals := r.st.locals[i := s], usable := r.st.usable + {s.handle});
      assert n.sent == r.sent && n.before == r.before && n.issued == r.issued;
      hide Next, FindUuid, Holds, Of;
      assert forall x :: x in n.st.locals && x != s ==> x in r.st.locals;
      assert r.st.locals[i] in r.st.locals && s.last == r.st.locals[i].last && s.handle == r.st.locals[i].handle;
  }

  lemma LastHeldJoin(r: Run)
    requires Partition(r) && LastHeld(r) && Enabled(r, Join)
    ensures LastHeld(Next(r, Join))
  {
    var n := Next(r, Join);
    NoHandles(r.st.buffered, r.st.locals);
    assert n.st == r.st.(buffered := n.st.buffered, bufferedTargets := n.st.bufferedTargets);
    assert n.st.buffered == r.st.persistent;
    assert forall p, q :: p in r.st.persistent && q in r.st.persistent && p.handle == q.handle ==> p == q;
    hide Partition, Enabled, Operation, Holds, Of, Sendable;
  }

  lemma LastHeldOther(r: Run, step: Step)
    requires LastHeld(r) && (!ForSources(step) || step.EnterInitFederate? || step.GoOnline? || step.Submit?)
    ensures LastHeld(Next(r, step))
  {
    var n := Next(r, step);
    if !ForSources(step) { OthersKeepSources(r.st, step); hide Operation; }
    assert n.st.persistent == r.st.persistent && n.st.buffered == r.st.buffered && n.st.locals == r.st.locals
      && n.st.usable == r.st.usable;
    assert n.issued == r.issued && n.sent == r.sent && n.before == r.before;
    hide Next, Holds, Of;
  }

  /** What a reset leaves at a registration: the last payload handed over since the previous reset
      unless there is none or it is empty. */
  lemma ResetSaves(r: Run, i: nat)
    requires Partition(r) && SubView(r) && LastHeld(r) && i < |r.st.persistent|
    ensures var p, p' := r.st.persistent[i], Next(r, ResetAll).st.persistent[i];
      p' == p.(last := if Holds(p, r.sent) != [] then Holds(p, r.sent) else p.last)
  {
    var p := r.st.persistent[i];
    assert p in r.st.persistent;
    assert Next(r, ResetAll).st.persistent[i] == SavedOne(p, r.st.locals, r.st.usable);
    assert r.st.usable <= LocalHandles(r.st.locals);
    hide Next, Partition, SubView, LocalHandles;
  }

  /** The last payload handed over survives the reset exactly when it is not an empty payload
      following a non-empty one of an earlier session. */
  lemma LastDataSurvivesReset(r: Run, i: nat)
    requires Partition(r) && SubView(r) && LastHeld(r) && i < |r.st.persistent|
    requires r.st.persistent[i].last == LastOf(r.before, r.st.persistent[i].handle)
    ensures var p, n := r.st.persistent[i], Next(r, ResetAll);
      && n.before == r.before + r.sent
      && (n.st.persistent[i].last == LastOf(n.before, p.handle)
          <==> !(Of(r.sent, p.handle) != [] && LastOf(r.sent, p.handle) == [] && p.last != []))
  {
    ResetSaves(r, i);
    assert Next(r, ResetAll).before == r.before + r.sent;
    hide Partition, SubView, LastHeld, Next, Of, LastOf;
    LastOfConcat(r.before, r.sent, r.st.persistent[i].handle);
  }

  lemma LastOfNonEmpty(ts: seq<Transmit>, h: Handle)
    requires NonEmpty(ts)
    ensures LastOf(ts, h) == [] <==> Of(ts, h) == []
  {
    if ts != [] { LastOfNonEmpty(ts[..|ts| - 1], h); }
  }

  lemma LastKeptReset(r: Run)
    requires Partition(r) && SubView(r) && LastHeld(r) && LastKept(r) && NonEmpty(r.sent)
    ensures LastKept(Next(r, ResetAll))
  {
    var n := Next(r, ResetAll);
    assert |n.st.persistent| == |r.st.persistent|;
    forall p | p in n.st.persistent ensures p.last == LastOf(n.before, p.handle) {
      var i :| 0 <= i < |n.st.persistent| && n.st.persistent[i] == p;
      hide Partition, SubView, LastHeld, Next, Of, LastOf;
      assert r.st.persistent[i] in r.st.persistent;
      ResetSaves(r, i);
      LastOfNonEmpty(r.sent, p.handle);
      LastDataSurvivesReset(r, i);
    }
  }

  lemma LastKeptOther(r: Run, step: Step)
    requires Identified(r) && LastHeld(r) && LastKept(r) && Partition(r) && SubView(r) && !step.ResetAll?
    ensures LastKept(Next(r, step))
  {
    var n := Next(r, step);
    assert n.before == r.before;
    if step.Register? {
      assert n.st.persistent == r.st.persistent + [SourceRegistration(step.name, step.conn, r.st.nextSource, [])];
      hide Next, LastOf, Partition, SubView;
      OfAbsent(r.before, r.st.nextSource);
    } else if step.Unregister? {
      hide Next, LastOf, Partition, SubView;
      Unregistered(r, step.handle);
    } else if step.Process? {
      hide Next, LastOf, Partition, SubView, ProcessedLocals, HasObject, Sendable, Unsendable, Identified, LastHeld;
      Processed(r);
    } else {
      hide Partition, SubView, Identified, LastHeld;
      if !ForSources(step) { OthersKeepSources(r.st, step); hide Operation; }
      hide LastOf, Sendable, FindUuid;
      assert n.st.persistent == r.st.persistent;
    }
  }

  // ----- Every reachable state -----

  ghost predicate Invariant(r: Run) {
    Partition(r) && Identified(r) && SubView(r) && Conserved(r) && LastHeld(r)
  }

  lemma PartitionStep(r: Run, step: Step)
    requires Partition(r) && Identified(r) && SubView(r) && Enabled(r, step)
    ensures Partition(Next(r, step))
  {
    if step.Register? { RegisterPartition(r, step.name, step.conn); }
    else if step.Unregister? { UnregisterPartition(r, step.handle); }
    else if step.Join? { JoinPartition(r); }
    else if step.ResetAll? { ResetPartition(r); }
    else if step.Reserved? { ReservedPartition(r, step.uuid, step.obj); }
    else if step.Process? { ProcessPartition(r); }
    else {
      var n := Next(r, step);
      if !ForSources(step) { OthersKeepSources(r.st, step); hide Operation; }
      assert n.st.persistent == r.st.persistent && n.st.buffered == r.st.buffered && n.st.locals == r.st.locals;
      assert n.issued == r.issued && n.unregistered == r.unregistered && n.joined == r.joined;
      hide Next, Identified, SubView, DistinctLocals, DistinctRegistrations;
    }
  }

  lemma IdentifiedStep(r: Run, step: Step)
    requires Partition(r) && Identified(r) && SubView(r)
    ensures Identified(Next(r, step))
  {
    hide Partition, Identified, SubView, Next;
    if step.Process? { IdentifiedProcess(r); }
    else if step.Unregister? { IdentifiedUnregister(r, step.handle); }
    else if step.ResetAll? { IdentifiedReset(r); }
    else if step.Register? { IdentifiedRegister(r, step.name, step.conn); }
    else { IdentifiedOther(r, step); }
  }

  lemma SubViewStep(r: Run, step: Step)
    requires Partition(r) && SubView(r) && Enabled(r, step)
    ensures SubView(Next(r, step))
  {
    hide Partition, SubView, Next, Enabled;
    if step.Process? { SubViewProcess(r); }
    else if step.Unregister? { SubViewUnregister(r, step.handle); }
    else if step.Reserved? { SubViewReserved(r, step.uuid, step.obj); }
    else { SubViewOther(r, step); }
  }

  lemma ConservedStep(r: Run, step: Step)
    requires Partition(r) && SubView(r) && Conserved(r)
    ensures Conserved(Next(r, step))
  {
    hide Partition, SubView, Conserved, Next;
    if step.Process? { ConservedProcess(r); }
    else if step.Submit? { ConservedSubmit(r, Transmit(step.handle, step.data)); }
    else { ConservedOther(r, step); }
  }

  lemma LastHeldStep(r: Run, step: Step)
    requires Partition(r) && Identified(r) && SubView(r) && LastHeld(r) && Enabled(r, step)
    ensures LastHeld(Next(r, step))
  {
    hide Partition, Identified, SubView, LastHeld, Next, Enabled;
    if step.Process? { LastHeldProcess(r); }
    else if step.Unregister? { LastHeldUnregister(r, step.handle); }
    else if step.Register? { LastHeldRegister(r, step.name, step.conn); }
    else if step.ResetAll? { LastHeldReset(r); }
    else if step.Reserved? { LastHeldReserved(r, step.uuid, step.obj); }
    else if step.Join? { LastHeldJoin(r); }
    else { LastHeldOther(r, step); }
  }

  lemma InvariantStep(r: Run, step: Step)
    requires Invariant(r) && Enabled(r, step)
    ensures Invariant(Next(r, step))
  {
    hide Partition, Identified, SubView, Conserved, LastHeld, Next, Enabled;
    PartitionStep(r, step);
    IdentifiedStep(r, step);
    SubViewStep(r, step);
    ConservedStep(r, step);
    LastHeldStep(r, step);
  }

  lemma {:induction false} InvariantStart(discoverers: set<string>)
    ensures Invariant(Start(discoverers)) && LastKept(Start(discoverers))
  {
    NothingBuffered();
  }

  /** In every reachable state the registrations are partitioned and identified, the handle map is
      a view of the local sources, transmissions are conserved, and last data is held. */
  lemma {:induction false} InvariantReached(r: Run, steps: seq<Step>, discoverers: set<string>)
    requires Reachable(r, steps, discoverers)
    ensures Invariant(r)
    decreases |steps|
  {
    hide Invariant, Enabled, Next, Start;
    if steps == [] {
      InvariantStart(discoverers);
    } else {
      var n := |steps| - 1;
      var q :| Reachable(q, steps[..n], discoverers) && Enabled(q, steps[n]) && r == Next(q, steps[n]);
      InvariantReached(q, steps[..n], discoverers);
      InvariantStep(q, steps[n]);
    }
  }

  /** No empty payload is submitted. */
  ghost predicate Filled(steps: seq<Step>) {
    forall step :: step in steps && step.Submit? ==> step.data != []
  }

  lemma FilledStep(r: Run, step: Step)
    requires Partition(r) && SubView(r)
    requires NonEmpty(r.st.transmits) && NonEmpty(r.sent) && (step.Submit? ==> step.data != [])
    ensures NonEmpty(Next(r, step).st.transmits) && NonEmpty(Next(r, step).sent)
  {
    var n := Next(r, step);
    if step.Process? {
      hide Next, Partition, SubView, ProcessedLocals, HasObject, Sendable, Unsendable;
      Processed(r);
      SendableMembers(r.st.usable, r.st.transmits);
    } else {
      hide Sendable, FindUuid, FindLocal, LocalHandles, RegisteredHandles, SavedLast, WithoutSource,
        WithoutRegistration;
      if !ForSources(step) { OthersKeepSources(r.st, step); hide Operation; }
    }
  }

  /** While no empty payload is submitted, in every reachable state each registration holds the
      last payload handed over for it before the last reset. */
  lemma {:induction false} LastKeptReached(r: Run, steps: seq<Step>, discoverers: set<string>)
    requires Reachable(r, steps, discoverers) && Filled(steps)
    ensures LastKept(r) && NonEmpty(r.st.transmits) && NonEmpty(r.sent)
    decreases |steps|
  {
    hide Partition, Identified, SubView, LastHeld, Conserved, Enabled, LastKept, Next;
    if steps == [] {
      InvariantStart(discoverers);
    } else {
      var n := |steps| - 1;
      var q :| Reachable(q, steps[..n], discoverers) && Enabled(q, steps[n]) && r == Next(q, steps[n]);
      InvariantReached(q, steps[..n], discoverers);
      LastKeptReached(q, steps[..n], discoverers);
      assert steps[n] in steps;
      FilledStep(q, steps[n]);
      hide Start;
      if steps[n].ResetAll? { LastKeptReset(q); } else { LastKeptOther(q, steps[n]); }
    }
  }

  lemma SourceHoldsLast(r: Run, p: SourceRegistration, s: Source)
    requires LastHeld(r) && LastKept(r)
    requires p in r.st.persistent && s in r.st.locals && p.handle == s.handle
    ensures s.last == LastOf(r.before + r.sent, s.handle)
  {
    hide Of, LastOf;
    LastOfConcat(r.before, r.sent, s.handle);
  }

  lemma RegistrationOf(r: Run, s: Source) returns (p: SourceRegistration)
    requires Partition(r) && s in r.st.locals
    ensures p in r.st.persistent && p.handle == s.handle
  {
    NoHandles(r.st.buffered, r.st.locals);
    assert s.handle in LocalHandles(r.st.locals);
    p :| p in r.st.persistent && p.handle == s.handle;
  }

  /** While no empty payload is submitted, every local source, even one whose name reservation is
      pending, starts with and keeps the last payload ever handed over for its handle. */
  lemma LastDataSurvives(r: Run, steps: seq<Step>, discoverers: set<string>)
    requires Reachable(r, steps, discoverers) && Filled(steps)
    ensures forall s :: s in r.st.locals ==> s.last == LastOf(r.before + r.sent, s.handle)
  {
    hide Reachable, Partition, LastHeld, LastKept, Identified, SubView, Conserved, LastOf, Filled;
    InvariantReached(r, steps, discoverers);
    LastKeptReached(r, steps, discoverers);
    forall s | s in r.st.locals ensures s.last == LastOf(r.before + r.sent, s.handle) {
      var p := RegistrationOf(r, s);
      SourceHoldsLast(r, p, s);
    }
  }

  /** A completed reservation announces the name and connection type the handle was issued for,
      with the last payload ever handed over for it. */
  lemma ReservationAnnouncesLastData(r: Run, steps: seq<Step>, discoverers: set<string>, uuid: Uuid, obj: Object,
      i: nat)
    requires Reachable(r, steps, discoverers) && Filled(steps)
    requires i < |r.st.locals| && r.st.locals[i].uuid == uuid
    ensures var h := r.st.locals[i].handle;
      && h in r.issued
      && SourceReserved(r.st, uuid, obj).calls ==
           [RegisterObject(obj, uuid), UpdateName(obj, r.issued[h].0, r.issued[h].1, LastOf(r.before + r.sent, h))]
  {
    hide Reachable, LastHeld, LastKept, SubView, Conserved, LastOf, Filled;
    InvariantReached(r, steps, discoverers);
    LastDataSurvives(r, steps, discoverers);
    var s := r.st.locals[i];
    assert s in r.st.locals;
    assert DistinctLocals(r.st.locals);
    hide Partition, Identified, FindUuid;
  }

  // ----- What the RTI is handed -----

  function Handed(calls: seq<RtiCall>): seq<RtiCall> {
    if calls == [] then [] else (if calls[0].UpdateData? then [calls[0]] else []) + Handed(calls[1..])
  }

  lemma HandedFront(c: RtiCall, calls: seq<RtiCall>)
    ensures Handed([c] + calls) == (if c.UpdateData? then [c] else []) + Handed(calls)
  {
    assert ([c] + calls)[1..] == calls;
  }

  lemma {:induction false} HandedConcat(a: seq<RtiCall>, b: seq<RtiCall>)
    ensures Handed(a + b) == Handed(a) + Handed(b)
  {
    if a == [] {
      assert a + b == b;
    } else {
      hide Handed;
      var c, rest := a[0], a[1..];
      assert a == [c] + rest && a + b == [c] + (rest + b);
      HandedConcat(rest, b);
      HandedFront(c, rest);
      HandedFront(c, rest + b);
    }
  }

  lemma {:induction false} HandedAll(calls: seq<RtiCall>)
    ensures (forall c :: c in calls ==> c.UpdateData?) ==> Handed(calls) == calls
    ensures (forall c :: c in calls ==> !c.UpdateData?) ==> Handed(calls) == []
  {
    if calls != [] { HandedAll(calls[1..]); }
  }

  lemma RequestsHandNothing(remotes: seq<Remote>, name: string)
    ensures forall c :: c in RequestsFor(remotes, name) ==> c.RequestData?
  {
  }

  lemma {:induction false} CreatingHandsNothing(st: State, rs: seq<SourceRegistration>)
    ensures forall c :: c in CreateSources(st, rs).calls ==> c.Reserve?
  {
    if rs != [] { CreatingHandsNothing(st, rs[..|rs| - 1]); }
  }

  lemma {:induction false} CreatingTargetsHandsNothing(st: State, rs: seq<TargetRegistration>)
    ensures forall c :: c in CreateTargets(st, rs).calls ==> c.Reserve? || c.RequestData?
  {
    if rs != [] {
      var n := |rs| - 1;
      var a := CreateTargets(st, rs[..n]);
      CreatingTargetsHandsNothing(st, rs[..n]);
      hide RequestsFor;
      RequestsHandNothing(a.st.remotes, rs[n].name);
    }
  }

  lemma DataCallsInFront(a: seq<Source>, b: seq<Source>, sent: seq<Transmit>)
    requires Ready(a, sent) && Ready(a + b, sent)
    ensures DataCalls(a + b, sent) == DataCalls(a, sent)
  {
    forall i | 0 <= i < |sent| ensures FindLocal(a + b, sent[i].handle) == FindLocal(a, sent[i].handle) {
      assert HasObject(a, sent[i].handle);
      FindInFront(a, b, sent[i].handle);
    }
  }

  lemma SendableReady(locals: seq<Source>, usable: set<Handle>, ts: seq<Transmit>)
    requires forall h :: h in usable ==> HasObject(locals, h)
    ensures Ready(locals, Sendable(usable, ts))
  {
    hide HasObject, Sendable;
    SendableMembers(usable, ts);
  }

  /** The calls made by processing the buffers: reservations and requests, then the data of the
      usable sources, in order. */
  lemma {:induction false} ProcessCalls(st: State) returns (prelude: seq<RtiCall>)
    requires forall h :: h in st.usable ==> HasObject(st.locals, h)
    ensures Ready(st.locals, Sendable(st.usable, st.transmits))
    ensures ProcessBuffers(st).calls == prelude + DataCalls(st.locals, Sendable(st.usable, st.transmits))
    ensures forall c :: c in prelude ==> c.Reserve? || c.RequestData?
  {
    hide CreateTargets, CreateSources, TransmitAll, HasObject, UpdatedLast, CreatedSources, CreatedTargets,
      WithCallbacks, Sendable, Unsendable, Ready;
    SendableReady(st.locals, st.usable, st.transmits);
    CreateTargetsSummary(st, st.bufferedTargets);
    var a := CreateTargets(st, st.bufferedTargets).st.(bufferedTargets := []);
    CreateSourcesSummary(a, st.buffered);
    var b := CreateSources(a, st.buffered).st.(buffered := [], transmits := []);
    var cs := CreatedSources(st.buffered, a.nextUuid);
    forall h | h in b.usable ensures HasObject(b.locals, h) {
      HasObjectInFront(st.locals, cs, h);
    }
    TransmitAllSummary(b, st.transmits);
    DataCallsInFront(st.locals, cs, Sendable(st.usable, st.transmits));
    var x, y := CreateTargets(st, st.bufferedTargets).calls, CreateSources(a, st.buffered).calls;
    prelude := x + y;
    CreatingTargetsHandsNothing(st, st.bufferedTargets);
    CreatingHandsNothing(a, st.buffered);
    assert forall c :: c in prelude ==> c in x || c in y;
  }

  /** Processing the buffers hands the RTI exactly the buffered payloads of the usable sources, in
      order, each for the object of its source. */
  lemma ProcessHandsOver(st: State)
    requires forall h :: h in st.usable ==> HasObject(st.locals, h)
    ensures Ready(st.locals, Sendable(st.usable, st.transmits))
    ensures Handed(ProcessBuffers(st).calls) == DataCalls(st.locals, Sendable(st.usable, st.transmits))
  {
    hide ProcessBuffers, HasObject, Sendable, Handed, Ready;
    var prelude := ProcessCalls(st);
    var data := DataCalls(st.locals, Sendable(st.usable, st.transmits));
    HandedConcat(prelude, data);
    HandedAll(prelude);
    HandedAll(data);
  }

  // ----- The assumptions needed -----

  /** Joining buffers each registration once exactly when no source was registered since entering
      InitFederate: such a source is buffered already, and its handle is then buffered twice. */
  lemma JoinBuffersOnce(st: State)
    requires DistinctRegistrations(st.persistent) && RegisteredHandles(st.buffered) <= RegisteredHandles(st.persistent)
    ensures DistinctRegistrations(ProcessPersistentRegistrations(st).buffered) <==> st.buffered == []
  {
    var rs := st.buffered + st.persistent;
    if st.buffered == [] {
      assert rs == st.persistent;
    } else {
      assert st.buffered[0].handle in RegisteredHandles(st.buffered);
      var p :| p in st.persistent && p.handle == st.buffered[0].handle;
      var j :| 0 <= j < |st.persistent| && st.persistent[j] == p;
      assert rs[0].handle == rs[|st.buffered| + j].handle;
    }
  }

  lemma RegisteredBeforeJoining(name: string, conn: string)
    ensures var st := RegisterSource(Start({}).st.(phase := InitFederate), name, conn);
      && ProcessPersistentRegistrations(st).buffered == [SourceRegistration(name, conn, 1, []),
        SourceRegistration(name, conn, 1, [])]
      && !DistinctRegistrations(ProcessPersistentRegistrations(st).buffered)
  {
    var st := RegisterSource(Start({}).st.(phase := InitFederate), name, conn);
    assert st.buffered != [];
    JoinBuffersOnce(st);
  }
}

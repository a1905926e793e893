/** The calls that a federate's service makes to the RTI over whole runs: the names it reserves, the
    objects it registers and deletes, and the objects it has unsubscribed from. */
module DOCalls {
  import opened Wrappers
  import opened DOModel
  import opened DORuns
  import opened DOInvariants
  import opened DORemotes
  import opened DOTargets

  /** A step of a run, and the run before it. */
  datatype Entry = Entry(before: Run, step: Step)

  ghost predicate Traced(r: Run, trail: seq<Entry>, discoverers: set<string>)
    decreases |trail|
  {
    if trail == [] then r == Start(discoverers) else
      var n := |trail| - 1;
      && Traced(trail[n].before, trail[..n], discoverers) && Enabled(trail[n].before, trail[n].step)
      && r == Next(trail[n].before, trail[n].step)
  }

  function StepsOf(trail: seq<Entry>): (steps: seq<Step>)
    ensures |steps| == |trail| && forall i :: 0 <= i < |trail| ==> steps[i] == trail[i].step
  {
    seq(|trail|, i requires 0 <= i < |trail| => trail[i].step)
  }

  /** The calls made since the last reset. */
  function Made(trail: seq<Entry>): seq<RtiCall> {
    if trail == [] then [] else
      var x := trail[|trail| - 1];
      if x.step.ResetAll? then [] else Made(trail[..|trail| - 1]) + Operation(x.before.st, x.step).calls
  }

  lemma TracedFront(r: Run, trail: seq<Entry>, discoverers: set<string>)
    requires Traced(r, trail, discoverers)
    ensures trail == [] ==> r == Start(discoverers)
    ensures trail != [] ==> var x := trail[|trail| - 1];
      Traced(x.before, trail[..|trail| - 1], discoverers) && Enabled(x.before, x.step) && r == Next(x.before, x.step)
    ensures trail != [] ==> trail == trail[..|trail| - 1] + [Entry(trail[|trail| - 1].before, trail[|trail| - 1].step)]
    ensures StepsOf(trail) == if trail == [] then [] else StepsOf(trail[..|trail| - 1]) + [trail[|trail| - 1].step]
  {
    hide Enabled, Next, Start;
  }

  lemma StartReached(discoverers: set<string>)
    ensures Reachable(Start(discoverers), [], discoverers)
  {
    hide Start;
  }

  lemma {:induction false} TracedSteps(r: Run, trail: seq<Entry>, discoverers: set<string>)
    requires Traced(r, trail, discoverers)
    ensures Reachable(r, StepsOf(trail), discoverers)
    decreases |trail|
  {
    hide *;
    TracedFront(r, trail, discoverers);
    if trail == [] {
      StartReached(discoverers);
    } else {
      var n := |trail| - 1;
      TracedSteps(trail[n].before, trail[..n], discoverers);
      DORuns.ReachedMore(trail[n].before, StepsOf(trail[..n]), discoverers, trail[n].step);
    }
  }

  lemma TracedReached(r: Run, trail: seq<Entry>, discoverers: set<string>)
    requires Traced(r, trail, discoverers)
    ensures Invariant(r) && Remotes(r) && Lined(r)
  {
    hide *;
    TracedSteps(r, trail, discoverers);
    InvariantReached(r, StepsOf(trail), discoverers);
    RemotesReached(r, StepsOf(trail), discoverers);
    LinedReached(r, StepsOf(trail), discoverers);
  }

  /** Every run has a trail. */
  lemma {:induction false} TrailOf(r: Run, steps: seq<Step>, discoverers: set<string>) returns (trail: seq<Entry>)
    requires Reachable(r, steps, discoverers)
    ensures Traced(r, trail, discoverers) && StepsOf(trail) == steps
    decreases |steps|
  {
    hide Enabled, Next, Start;
    if steps == [] {
      trail := [];
    } else {
      var n := |steps| - 1;
      var q :| Reachable(q, steps[..n], discoverers) && Enabled(q, steps[n]) && r == Next(q, steps[n]);
      var front := TrailOf(q, steps[..n], discoverers);
      trail := front + [Entry(q, steps[n])];
      assert trail[..n] == front;
    }
  }

  /** Which calls a step can make. */
  lemma CallsOfStep(st: State, step: Step)
    ensures var calls := Operation(st, step).calls;
      && (!(step.Process? || step.Reserved? || step.Provide? || step.SourceUpdate? || step.Unregister?) ==> calls == [])
      && (step.Reserved? ==> calls == [] || exists u, n, c, d ::
            calls == [RegisterObject(step.obj, u), UpdateName(step.obj, n, c, d)])
      && (step.Provide? ==> forall c :: c in calls ==> c.UpdateName? || c.UpdateData?)
      && (step.SourceUpdate? ==> forall c :: c in calls ==> c == Unsubscribe(step.obj))
      && (step.Unregister? ==> forall c :: c in calls ==> c.DeleteObject?)
  {
    hide FindLocal, LocalHandles, RegisteredHandles, WithoutSource, WithoutRegistration, FindUuid, FindObject,
      FindRemote, HasLocalTarget, RunCallback, ProcessBuffers, ProcessPersistentRegistrations, Reset;
  }

  // ----- Names reserved -----

  function Reserving(call: RtiCall): seq<Uuid> {
    if call.Reserve? then [call.uuid] else []
  }

  function ReservedIn(calls: seq<RtiCall>): seq<Uuid> {
    if calls == [] then [] else ReservedIn(calls[..|calls| - 1]) + Reserving(calls[|calls| - 1])
  }

  /** The names from one on, up to another. */
  function Names(first: Uuid, next: Uuid): (r: seq<Uuid>)
    requires first <= next
    ensures |r| == next - first && forall i :: 0 <= i < |r| ==> r[i] == first + i
  {
    seq(next - first, i requires 0 <= i < next - first => first + i)
  }

  lemma ReservedSnoc(a: seq<RtiCall>, c: RtiCall)
    ensures ReservedIn(a + [c]) == ReservedIn(a) + Reserving(c)
  {
    hide Reserving;
    assert (a + [c])[..|a|] == a;
  }

  lemma {:induction false} ReservedConcat(a: seq<RtiCall>, b: seq<RtiCall>)
    ensures ReservedIn(a + b) == ReservedIn(a) + ReservedIn(b)
  {
    hide ReservedIn, Reserving;
    if b == [] {
      assert a + b == a;
      NoneReserved([]);
    } else {
      var n := |b| - 1;
      assert b == b[..n] + [b[n]] && a + b == (a + b[..n]) + [b[n]];
      ReservedConcat(a, b[..n]);
      ReservedSnoc(b[..n], b[n]);
      ReservedSnoc(a + b[..n], b[n]);
    }
  }

  lemma {:induction false} NoneReserved(calls: seq<RtiCall>)
    requires forall c :: c in calls ==> !c.Reserve?
    ensures ReservedIn(calls) == []
  {
    if calls != [] { NoneReserved(calls[..|calls| - 1]); }
  }

  lemma ReservedFirst(uuid: Uuid, calls: seq<RtiCall>)
    requires forall c :: c in calls ==> !c.Reserve?
    ensures ReservedIn([Reserve(uuid)] + calls) == [uuid]
  {
    assert [Reserve(uuid)][..0] == [];
    ReservedConcat([Reserve(uuid)], calls);
    NoneReserved(calls);
  }

  lemma OneMoreReserved(all: seq<RtiCall>, calls: seq<RtiCall>, first: Uuid, n: nat, more: seq<RtiCall>,
      rest: seq<RtiCall>)
    requires all == calls + more && more == [Reserve(first + n)] + rest && forall c :: c in rest ==> !c.Reserve?
    requires ReservedIn(calls) == Names(first, first + n)
    ensures ReservedIn(all) == Names(first, first + (n + 1))
  {
    hide ReservedIn;
    ReservedFirst(first + n, rest);
    ReservedConcat(calls, more);
  }

  lemma SourcesSnoc(st: State, rs: seq<SourceRegistration>)
    requires rs != []
    ensures var a := CreateSources(st, rs[..|rs| - 1]);
      CreateSources(st, rs).calls == a.calls + CreateSource(a.st, rs[|rs| - 1]).calls
  {
  }

  lemma TargetsSnoc(st: State, rs: seq<TargetRegistration>)
    requires rs != []
    ensures var a := CreateTargets(st, rs[..|rs| - 1]);
      && CreateTargets(st, rs).calls == a.calls + CreateTarget(a.st, rs[|rs| - 1]).calls
      && CreateTargets(st, rs).st == CreateTarget(a.st, rs[|rs| - 1]).st
  {
    hide CreateTarget;
  }

  lemma SourceReserves(st: State, rs: seq<SourceRegistration>, r: SourceRegistration)
    ensures CreateSource(CreateSources(st, rs).st, r).calls == [Reserve(st.nextUuid + |rs|)]
  {
    hide CreateSources, CreatedSources;
    CreateSourcesSummary(st, rs);
  }

  lemma TargetReserves(st: State, rs: seq<TargetRegistration>, r: TargetRegistration)
    ensures CreateTarget(CreateTargets(st, rs).st, r).calls ==
      [Reserve(st.nextUuid + |rs|)] + RequestsFor(st.remotes, r.name)
  {
    hide CreateTargets, CreatedTargets, WithCallbacks, RequestsFor;
    CreateTargetsSummary(st, rs);
  }

  lemma NothingReserves(st: State)
    ensures ReservedIn(CreateSources(st, []).calls) == Names(st.nextUuid, st.nextUuid)
    ensures ReservedIn(CreateTargets(st, []).calls) == Names(st.nextUuid, st.nextUuid)
  {
  }

  lemma {:induction false} SourcesReserve(st: State, rs: seq<SourceRegistration>)
    ensures ReservedIn(CreateSources(st, rs).calls) == Names(st.nextUuid, st.nextUuid + |rs|)
  {
    hide *;
    if rs == [] {
      NothingReserves(st);
    } else {
      var n := |rs| - 1;
      SourcesReserve(st, rs[..n]);
      SourcesSnoc(st, rs);
      SourceReserves(st, rs[..n], rs[n]);
      OneMoreReserved(CreateSources(st, rs).calls, CreateSources(st, rs[..n]).calls, st.nextUuid, n,
        [Reserve(st.nextUuid + n)], []);
    }
  }

  lemma {:induction false} TargetsReserve(st: State, rs: seq<TargetRegistration>)
    ensures ReservedIn(CreateTargets(st, rs).calls) == Names(st.nextUuid, st.nextUuid + |rs|)
  {
    hide *;
    if rs == [] {
      NothingReserves(st);
    } else {
      var n := |rs| - 1;
      TargetsReserve(st, rs[..n]);
      TargetsSnoc(st, rs);
      TargetReserves(st, rs[..n], rs[n]);
      RequestsHandNothing(st.remotes, rs[n].name);
      var rest := RequestsFor(st.remotes, rs[n].name);
      OneMoreReserved(CreateTargets(st, rs).calls, CreateTargets(st, rs[..n]).calls, st.nextUuid, n,
        [Reserve(st.nextUuid + n)] + rest, rest);
    }
  }

  /** The calls of processing the buffers, by what makes them. */
  lemma ProcessedCalls(st: State) returns (targets: seq<RtiCall>, sources: seq<RtiCall>, data: seq<RtiCall>)
    requires forall h :: h in st.usable ==> HasObject(st.locals, h)
    ensures ProcessBuffers(st).calls == targets + sources + data
    ensures targets == CreateTargets(st, st.bufferedTargets).calls
    ensures ReservedIn(sources) == Names(st.nextUuid + |st.bufferedTargets|,
      st.nextUuid + |st.bufferedTargets| + |st.buffered|)
    ensures (forall c :: c in sources ==> c.Reserve?) && (forall c :: c in data ==> c.UpdateData?)
  {
    hide CreateTargets, CreateSources, TransmitAll, HasObject, UpdatedLast, CreatedSources, CreatedTargets,
      WithCallbacks, Sendable, Unsendable, ReservedIn;
    CreateTargetsSummary(st, st.bufferedTargets);
    var a := CreateTargets(st, st.bufferedTargets).st.(bufferedTargets := []);
    CreateSourcesSummary(a, st.buffered);
    var b := CreateSources(a, st.buffered).st.(buffered := [], transmits := []);
    forall h | h in b.usable ensures HasObject(b.locals, h) {
      HasObjectInFront(st.locals, CreatedSources(st.buffered, a.nextUuid), h);
    }
    TransmitAllSummary(b, st.transmits);
    targets, sources, data := CreateTargets(st, st.bufferedTargets).calls, CreateSources(a, st.buffered).calls,
      TransmitAll(b, st.transmits).calls;
    SourcesReserve(a, st.buffered);
    CreatingHandsNothing(a, st.buffered);
  }

  lemma NamesJoin(a: Uuid, b: Uuid, c: Uuid)
    requires a <= b <= c
    ensures Names(a, b) + Names(b, c) == Names(a, c)
  {
  }

  lemma ProcessReserves(r: Run)
    requires Invariant(r)
    ensures r.st.nextUuid <= Next(r, Process).st.nextUuid
    ensures ReservedIn(ProcessBuffers(r.st).calls) == Names(r.st.nextUuid, Next(r, Process).st.nextUuid)
  {
    var st := r.st;
    hide Invariant, ProcessBuffers, ReservedIn, Partition, SubView, HasObject, ProcessedLocals, Unsendable, Sendable;
    UsableHaveObjects(r) by { assert Partition(r) && SubView(r) by { Parted(r); } }
    Processed(r) by { Parted(r); }
    var targets, sources, data := ProcessedCalls(st);
    TargetsReserve(st, st.bufferedTargets);
    ReservedConcat(targets + sources, data);
    ReservedConcat(targets, sources);
    NoneReserved(data);
    NamesJoin(st.nextUuid, st.nextUuid + |st.bufferedTargets|, st.nextUuid + |st.bufferedTargets| + |st.buffered|);
  }

  lemma Parted(r: Run)
    requires Invariant(r)
    ensures Partition(r) && SubView(r)
  {
    hide Partition, SubView;
  }

  /** The names from which the service counts on since the last reset. */
  function First(trail: seq<Entry>): Uuid {
    if trail == [] then 0 else
      var x := trail[|trail| - 1];
      if x.step.ResetAll? then x.before.st.nextUuid else First(trail[..|trail| - 1])
  }

  /** Local sources and targets have names of this range, each its own. */
  ghost predicate Named(locals: seq<Source>, targets: seq<Target>, first: Uuid, next: Uuid) {
    && first <= next
    && (forall s :: s in locals ==> first <= s.uuid < next)
    && (forall t :: t in targets ==> first <= t.uuid < next)
    && (forall s, t :: s in locals && t in targets ==> s.uuid != t.uuid)
    && (forall i, j :: 0 <= i < j < |targets| ==> targets[i].uuid != targets[j].uuid)
  }

  lemma MadeMore(trail: seq<Entry>, r: Run, step: Step)
    ensures var all := trail + [Entry(r, step)];
      && Made(all) == (if step.ResetAll? then [] else Made(trail) + Operation(r.st, step).calls)
      && First(all) == if step.ResetAll? then r.st.nextUuid else First(trail)
  {
    hide Operation;
    assert (trail + [Entry(r, step)])[..|trail|] == trail;
  }

  lemma ProcessedTargets(r: Run)
    requires Invariant(r)
    ensures Next(r, Process).st.localTargets ==
      r.st.localTargets + CreatedTargets(r.st.bufferedTargets, r.st.nextUuid)
  {
    hide Invariant, ProcessBuffers, CreatedTargets;
    ProcessedLocalTargets(r);
  }

  lemma ProcessedSources(r: Run)
    requires Invariant(r)
    ensures var st, n := r.st, Next(r, Process);
      && SameIdentities(st.locals + CreatedSources(st.buffered, st.nextUuid + |st.bufferedTargets|), n.st.locals)
      && n.st.nextUuid == st.nextUuid + |st.bufferedTargets| + |st.buffered|
  {
    Parted(r);
    hide *;
    Processed(r);
    ProcessedSame(r.st);
  }

  lemma ProcessedSame(st: State)
    ensures SameIdentities(st.locals + CreatedSources(st.buffered, st.nextUuid + |st.bufferedTargets|),
      ProcessedLocals(st))
  {
    hide Sendable, CreatedSources, UpdatedLast, SameIdentities;
    UpdatedIdentities(st.locals + CreatedSources(st.buffered, st.nextUuid + |st.bufferedTargets|),
      Sendable(st.usable, st.transmits));
  }

  lemma NamedProcess(r: Run, first: Uuid)
    requires Invariant(r) && Named(r.st.locals, r.st.localTargets, first, r.st.nextUuid)
    ensures var n := Next(r, Process); Named(n.st.locals, n.st.localTargets, first, n.st.nextUuid)
  {
    hide *;
    ProcessedTargets(r);
    ProcessedSources(r);
    var st, n := r.st, Next(r, Process);
    NamedCreated(st.locals, st.localTargets, first, st.nextUuid, st.bufferedTargets, st.buffered);
    NamedSame(st.locals + CreatedSources(st.buffered, st.nextUuid + |st.bufferedTargets|), n.st.locals,
      n.st.localTargets, first, n.st.nextUuid);
  }

  lemma NamedCreated(ss: seq<Source>, ts: seq<Target>, first: Uuid, next: Uuid, targets: seq<TargetRegistration>,
      sources: seq<SourceRegistration>)
    requires Named(ss, ts, first, next)
    ensures Named(ss + CreatedSources(sources, next + |targets|), ts + CreatedTargets(targets, next), first,
      next + |targets| + |sources|)
  {
    var cs, ct := CreatedSources(sources, next + |targets|), CreatedTargets(targets, next);
    assert forall i :: 0 <= i < |ts| ==> ts[i] in ts;
    forall s | s in ss + cs ensures s in ss || next + |targets| <= s.uuid < next + |targets| + |sources| {
    }
    forall t | t in ts + ct ensures t in ts || next <= t.uuid < next + |targets| {
    }
  }

  lemma NamedSame(a: seq<Source>, b: seq<Source>, targets: seq<Target>, first: Uuid, next: Uuid)
    requires Named(a, targets, first, next) && SameIdentities(a, b)
    ensures Named(b, targets, first, next)
  {
    forall s | s in b ensures exists q :: q in a && q.uuid == s.uuid {
      var i :| 0 <= i < |b| && b[i] == s;
      assert a[i] in a;
    }
  }

  ghost predicate Booked(r: Run, trail: seq<Entry>) {
    && First(trail) <= r.st.nextUuid
    && ReservedIn(Made(trail)) == Names(First(trail), r.st.nextUuid)
    && Named(r.st.locals, r.st.localTargets, First(trail), r.st.nextUuid)
  }

  lemma ReservedSame(r: Run, uuid: Uuid, obj: Object)
    ensures var n := Next(r, Reserved(uuid, obj));
      n.st.nextUuid == r.st.nextUuid && SameIdentities(r.st.locals, n.st.locals)
  {
  }

  lemma SourcesStay(r: Run, step: Step)
    requires !step.Process? && !step.ResetAll? && !step.Reserved? && !step.Unregister?
    ensures Next(r, step).st.locals == r.st.locals && Next(r, step).st.nextUuid == r.st.nextUuid
  {
    if !ForSources(step) {
      OthersKeepSources(r.st, step);
      hide Operation;
    }
  }

  lemma TargetsStay(r: Run, step: Step)
    requires !step.Process? && !step.ResetAll?
    ensures Next(r, step).st.localTargets == r.st.localTargets
  {
    OthersKeepLocals(r.st, step);
    hide Operation;
  }

  lemma NamedOther(r: Run, step: Step, first: Uuid)
    requires Invariant(r) && Named(r.st.locals, r.st.localTargets, first, r.st.nextUuid)
    requires !step.Process? && !step.ResetAll?
    ensures var n := Next(r, step);
      n.st.nextUuid == r.st.nextUuid && Named(n.st.locals, n.st.localTargets, first, n.st.nextUuid)
  {
    hide *;
    TargetsStay(r, step);
    var n := Next(r, step);
    if step.Reserved? {
      ReservedSame(r, step.uuid, step.obj);
      NamedSame(r.st.locals, n.st.locals, r.st.localTargets, first, r.st.nextUuid);
    } else if step.Unregister? {
      Parted(r);
      Unregistered(r, step.handle);
      NamedFewer(r.st.locals, n.st.locals, r.st.localTargets, first, r.st.nextUuid);
    } else {
      SourcesStay(r, step);
    }
  }

  lemma NamedFewer(a: seq<Source>, b: seq<Source>, targets: seq<Target>, first: Uuid, next: Uuid)
    requires Named(a, targets, first, next) && forall s :: s in b ==> s in a
    ensures Named(b, targets, first, next)
  {
  }

  lemma BookedStep(r: Run, trail: seq<Entry>, step: Step)
    requires Booked(r, trail) && Invariant(r)
    ensures Booked(Next(r, step), trail + [Entry(r, step)])
  {
    MadeMore(trail, r, step);
    var n := Next(r, step);
    hide First, Made, Invariant, ReservedIn, Named;
    if step.ResetAll? {
      NoneReserved([]);
      NamedNothing(r.st.nextUuid);
    } else if step.Process? {
      hide Next, ProcessBuffers;
      NamedProcess(r, First(trail));
      ProcessReserves(r);
      ReservedConcat(Made(trail), ProcessBuffers(r.st).calls);
      NamesJoin(First(trail), r.st.nextUuid, n.st.nextUuid);
    } else {
      hide Next, Operation;
      NamedOther(r, step, First(trail));
      CallsOfStep(r.st, step);
      ReservedConcat(Made(trail), Operation(r.st, step).calls);
      NoneReserved(Operation(r.st, step).calls);
    }
  }

  lemma NamedNothing(next: Uuid)
    ensures Named([], [], next, next)
  {
  }

  /** In every run the names reserved since the last reset are those counted since then, each once and in
      order, and every local source and target has one of these, and its own. */
  lemma {:induction false} NamesReserved(r: Run, trail: seq<Entry>, discoverers: set<string>)
    requires Traced(r, trail, discoverers)
    ensures Booked(r, trail) && DistinctLocals(r.st.locals)
    decreases |trail|
  {
    hide Traced, Booked, Invariant, Next, Enabled, Remotes, Lined, DistinctLocals;
    TracedFront(r, trail, discoverers);
    TracedReached(r, trail, discoverers);
    if trail == [] {
      BookedStart(discoverers);
    } else {
      var n := |trail| - 1;
      NamesReserved(trail[n].before, trail[..n], discoverers);
      TracedReached(trail[n].before, trail[..n], discoverers);
      BookedStep(trail[n].before, trail[..n], trail[n].step);
    }
    DistinctlyLocal(r);
  }

  lemma DistinctlyLocal(r: Run)
    requires Invariant(r)
    ensures DistinctLocals(r.st.locals)
  {
    hide DistinctLocals;
  }

  lemma BookedStart(discoverers: set<string>)
    ensures Booked(Start(discoverers), [])
  {
  }

  // ----- Objects registered and deleted -----

  function KeptAfter(before: set<Object>, call: RtiCall): set<Object> {
    if call.RegisterObject? then before + {call.obj}
    else if call.DeleteObject? && call.deleted.Some? then before - {call.deleted.value}
    else before
  }

  /** The objects registered and not deleted again. */
  function Kept(calls: seq<RtiCall>): set<Object> {
    if calls == [] then {} else
      KeptAfter(Kept(calls[..|calls| - 1]), calls[|calls| - 1])
  }

  lemma {:induction false} KeptConcat(a: seq<RtiCall>, b: seq<RtiCall>)
    requires forall c :: c in b ==> !c.RegisterObject? && !c.DeleteObject?
    ensures Kept(a + b) == Kept(a)
  {
    if b == [] {
      assert a + b == a;
    } else {
      var n := |b| - 1;
      KeptConcat(a, b[..n]);
      assert (a + b)[..|a| + n] == a + b[..n] && (a + b)[|a| + n] == b[n];
    }
  }

  lemma KeptSnoc(a: seq<RtiCall>, c: RtiCall)
    ensures Kept(a + [c]) == KeptAfter(Kept(a), c)
  {
    assert (a + [c])[..|a|] == a;
  }

  function ObjectsOf(ss: seq<Source>): set<Object> {
    set s | s in ss && s.obj.Some? :: s.obj.value
  }

  /** The objects of the local source with the handle. */
  function ObjectsFor(ss: seq<Source>, h: Handle): set<Object> {
    set s | s in ss && s.handle == h && s.obj.Some? :: s.obj.value
  }

  /** The objects whose sources were unregistered before going online, since the last reset. */
  function LeftBehind(trail: seq<Entry>): set<Object> {
    if trail == [] then {} else
      var x, before := trail[|trail| - 1], LeftBehind(trail[..|trail| - 1]);
      if x.step.ResetAll? then {}
      else if x.step.Unregister? && !x.before.st.phase.Online? then
        before + ObjectsFor(x.before.st.locals, x.step.handle)
      else before
  }

  /** The RTI completes each reservation once, and gives every object a handle of its own. */
  predicate GivesNew(trail: seq<Entry>) {
    forall i :: 0 <= i < |trail| && trail[i].step.Reserved? ==> IsNew(trail[..i], trail[i].before, trail[i].step)
  }

  predicate IsNew(trail: seq<Entry>, r: Run, step: Step)
    requires step.Reserved?
  {
    && step.obj !in Kept(Made(trail))
    && forall s :: s in r.st.locals && s.uuid == step.uuid ==> s.obj.None?
  }

  ghost predicate OwnObjects(ss: seq<Source>) {
    forall s, q :: s in ss && q in ss && s.obj.Some? && s.obj == q.obj ==> s == q
  }

  ghost predicate Accounted(r: Run, trail: seq<Entry>) {
    Balanced(Kept(Made(trail)), ObjectsOf(r.st.locals), LeftBehind(trail)) && OwnObjects(r.st.locals)
  }

  /** The objects kept are those owned and those left behind, which are not the same. */
  predicate Balanced(kept: set<Object>, own: set<Object>, left: set<Object>) {
    kept == own + left && own !! left
  }

  lemma LeftBehindMore(trail: seq<Entry>, r: Run, step: Step)
    ensures LeftBehind(trail + [Entry(r, step)]) ==
      if step.ResetAll? then {}
      else if step.Unregister? && !r.st.phase.Online? then LeftBehind(trail) + ObjectsFor(r.st.locals, step.handle)
      else LeftBehind(trail)
  {
    hide ObjectsFor;
    assert (trail + [Entry(r, step)])[..|trail|] == trail;
  }

  /** Unregistering a source deletes its object while online: a local source leaves the list, and its
      object is deleted if the federate is online; nothing is deleted for a source still buffered. */
  lemma UnregisteringDeletes(r: Run, h: Handle)
    requires Invariant(r)
    ensures var e := UnregisterSource(r.st, h);
      && (forall s :: s in r.st.locals && s.handle == h ==>
            e.calls == if r.st.phase.Online? then [DeleteObject(s.obj)] else [])
      && (h !in LocalHandles(r.st.locals) ==> e.calls == [])
      && (forall s :: s in e.st.locals <==> s in r.st.locals && s.handle != h)
  {
    Parted(r);
    var st, e := r.st, UnregisterSource(r.st, h);
    hide Invariant, SubView;
    if h in LocalHandles(st.locals) { LocalIsPersistent(r, h); }
    forall s | s in st.locals && s.handle == h ensures FindLocal(st.locals, h) == Some(s) {
      OneOfHandle(st.locals, s, FindLocal(st.locals, h).value);
    }
    WithoutSourceHandles(st.locals, h);
    hide WithoutSource, WithoutRegistration, FindLocal, DistinctLocals, DistinctRegistrations;
  }

  lemma LocalIsPersistent(r: Run, h: Handle)
    requires Partition(r) && h in LocalHandles(r.st.locals)
    ensures h in RegisteredHandles(r.st.persistent) && h !in RegisteredHandles(r.st.buffered)
  {
    hide DistinctRegistrations, DistinctLocals, RegisteredHandles, LocalHandles;
  }

  lemma OneOfHandle(ss: seq<Source>, s: Source, q: Source)
    requires DistinctLocals(ss) && s in ss && q in ss && s.handle == q.handle
    ensures s == q
  {
  }

  lemma Reserving2(calls: seq<RtiCall>, a: RtiCall, b: RtiCall)
    requires a.RegisterObject? && b.UpdateName?
    ensures Kept(calls + [a, b]) == Kept(calls) + {a.obj}
  {
    hide Kept;
    assert calls + [a, b] == calls + [a] + [b];
    KeptSnoc(calls, a);
    KeptSnoc(calls + [a], b);
  }

  lemma ReservedFound(r: Run, uuid: Uuid, obj: Object) returns (i: nat, a: RtiCall, b: RtiCall)
    requires exists s :: s in r.st.locals && s.uuid == uuid
    ensures i < |r.st.locals| && r.st.locals[i].uuid == uuid && r.st.locals[i] in r.st.locals
    ensures Next(r, Reserved(uuid, obj)).st.locals == r.st.locals[i := r.st.locals[i].(obj := Some(obj))]
    ensures Operation(r.st, Reserved(uuid, obj)).calls == [a, b] && a == RegisterObject(obj, uuid) && b.UpdateName?
  {
    var calls := SourceReserved(r.st, uuid, obj).calls;
    i := FindUuid(r.st.locals, uuid).value;
    a, b := calls[0], calls[1];
  }

  lemma ReservedNotFound(r: Run, uuid: Uuid, obj: Object)
    requires !exists s :: s in r.st.locals && s.uuid == uuid
    ensures Next(r, Reserved(uuid, obj)).st.locals == r.st.locals
    ensures Operation(r.st, Reserved(uuid, obj)).calls == []
  {
  }

  lemma AccountedReserved(r: Run, trail: seq<Entry>, uuid: Uuid, obj: Object)
    requires Accounted(r, trail)
    requires obj !in Kept(Made(trail)) && forall s :: s in r.st.locals && s.uuid == uuid ==> s.obj.None?
    ensures Accounted(Next(r, Reserved(uuid, obj)), trail + [Entry(r, Reserved(uuid, obj))])
  {
    hide Next, Operation, Kept, Made, ObjectsOf, OwnObjects, LeftBehind;
    if exists s :: s in r.st.locals && s.uuid == uuid {
      MadeMore(trail, r, Reserved(uuid, obj));
      LeftBehindMore(trail, r, Reserved(uuid, obj));
      var i, a, b := ReservedFound(r, uuid, obj);
      Reserving2(Made(trail), a, b);
      WithObject(r.st.locals, i, obj);
    } else {
      ReservedNotFound(r, uuid, obj);
      AccountedSame(r, trail, Reserved(uuid, obj));
    }
  }

  lemma WithObject(ss: seq<Source>, i: nat, obj: Object)
    requires OwnObjects(ss) && i < |ss| && ss[i].obj.None? && obj !in ObjectsOf(ss)
    ensures var now := ss[i := ss[i].(obj := Some(obj))]; ObjectsOf(now) == ObjectsOf(ss) + {obj} && OwnObjects(now)
  {
    var x := ss[i].(obj := Some(obj));
    var now := ss[i := x];
    forall s | s in ss && s.obj.Some? ensures s in now {
      var j :| 0 <= j < |ss| && ss[j] == s;
      assert now[j] == s;
    }
    forall s | s in now ensures s == x || s in ss {
    }
    assert now[i] == x;
    assert forall s :: s in ss && s.obj.Some? ==> s.obj.value in ObjectsOf(ss);
  }

  lemma UnregisteredIs(r: Run, h: Handle)
    ensures Operation(r.st, Unregister(h)) == UnregisterSource(r.st, h)
      && Next(r, Unregister(h)).st == UnregisterSource(r.st, h).st
  {
    hide UnregisterSource;
  }

  /** What unregistering says to the RTI, by the objects of the handle. */
  lemma UnregisterCalls(r: Run, h: Handle, calls: seq<RtiCall>)
    requires Partition(r)
    requires forall s :: s in r.st.locals && s.handle == h ==>
      calls == if r.st.phase.Online? then [DeleteObject(s.obj)] else []
    requires h !in LocalHandles(r.st.locals) ==> calls == []
    ensures Deletes(calls, ObjectsFor(r.st.locals, h), r.st.phase.Online?)
  {
    if h in LocalHandles(r.st.locals) {
      var s :| s in r.st.locals && s.handle == h;
      hide Partition;
      OnlyObject(r, s);
      hide ObjectsFor;
      if r.st.phase.Online? && s.obj.Some? { assert DeletesOne(calls, s.obj.value); }
    } else {
      hide Partition;
      assert ObjectsFor(r.st.locals, h) == {};
    }
  }

  ghost predicate Deletes(calls: seq<RtiCall>, own: set<Object>, online: bool) {
    if !online then calls == []
    else if own == {} then calls == [] || calls == [DeleteObject(None)]
    else exists o :: own == {o} && DeletesOne(calls, o)
  }

  predicate DeletesOne(calls: seq<RtiCall>, obj: Object) {
    calls == [DeleteObject(Some(obj))]
  }

  lemma Deleting(made: seq<RtiCall>, calls: seq<RtiCall>, own: set<Object>, online: bool)
    requires Deletes(calls, own, online)
    ensures Kept(made + calls) == if online then Kept(made) - own else Kept(made)
  {
    hide Kept;
    if calls == [] {
      assert made + [] == made;
    } else {
      KeptSnoc(made, calls[0]);
    }
  }

  lemma UnregisterBalances(r: Run, h: Handle)
    requires Invariant(r) && OwnObjects(r.st.locals)
    ensures var n, own := Next(r, Unregister(h)), ObjectsFor(r.st.locals, h);
      && ObjectsOf(n.st.locals) == ObjectsOf(r.st.locals) - own && own <= ObjectsOf(r.st.locals)
      && OwnObjects(n.st.locals) && Deletes(Operation(r.st, Unregister(h)).calls, own, r.st.phase.Online?)
  {
    Parted(r);
    hide Invariant, Next, UnregisterSource, Partition, SubView, Operation, ObjectsOf, OwnObjects, ObjectsFor,
      LocalHandles, Deletes;
    UnregisteredIs(r, h);
    UnregisteringDeletes(r, h);
    Without(r.st.locals, Next(r, Unregister(h)).st.locals, h);
    UnregisterCalls(r, h, Operation(r.st, Unregister(h)).calls);
  }

  lemma AccountedUnregister(r: Run, trail: seq<Entry>, h: Handle)
    requires Accounted(r, trail) && Invariant(r)
    ensures Accounted(Next(r, Unregister(h)), trail + [Entry(r, Unregister(h))])
  {
    hide Made, LeftBehind, Invariant, Next, Kept, Operation, ObjectsOf, OwnObjects, ObjectsFor, Deletes;
    UnregisterBalances(r, h);
    MadeMore(trail, r, Unregister(h));
    LeftBehindMore(trail, r, Unregister(h));
    Deleting(Made(trail), Operation(r.st, Unregister(h)).calls, ObjectsFor(r.st.locals, h), r.st.phase.Online?);
  }

  lemma OnlyObject(r: Run, s: Source)
    requires Partition(r) && s in r.st.locals
    ensures ObjectsFor(r.st.locals, s.handle) == if s.obj.Some? then {s.obj.value} else {}
  {
    hide Divided;
    forall q | q in r.st.locals && q.handle == s.handle ensures q == s {
      OneOfHandle(r.st.locals, q, s);
    }
  }

  lemma Without(ss: seq<Source>, now: seq<Source>, h: Handle)
    requires OwnObjects(ss) && forall s :: s in now <==> s in ss && s.handle != h
    ensures ObjectsOf(now) == ObjectsOf(ss) - ObjectsFor(ss, h) && ObjectsFor(ss, h) <= ObjectsOf(ss)
    ensures OwnObjects(now)
  {
  }

  lemma AccountedSame(r: Run, trail: seq<Entry>, step: Step)
    requires Accounted(r, trail) && !step.ResetAll? && !step.Unregister?
    requires var n := Next(r, step);
      ObjectsOf(n.st.locals) == ObjectsOf(r.st.locals) && OwnObjects(n.st.locals)
    requires forall c :: c in Operation(r.st, step).calls ==> !c.RegisterObject? && !c.DeleteObject?
    ensures Accounted(Next(r, step), trail + [Entry(r, step)])
  {
    hide Next, Operation, Kept, Made, ObjectsOf, OwnObjects, LeftBehind;
    MadeMore(trail, r, step);
    LeftBehindMore(trail, r, step);
    KeptConcat(Made(trail), Operation(r.st, step).calls);
  }

  lemma ProcessedIs(r: Run)
    requires Invariant(r)
    ensures var st := r.st;
      Next(r, Process).st.locals == UpdatedLast(st.locals + CreatedSources(st.buffered,
        st.nextUuid + |st.bufferedTargets|), Sendable(st.usable, st.transmits))
  {
    hide *;
    Parted(r);
    Processed(r);
    Unfolded(r.st);
  }

  lemma ProcessedObjects(r: Run)
    requires Invariant(r) && OwnObjects(r.st.locals)
    ensures var n := Next(r, Process);
      ObjectsOf(n.st.locals) == ObjectsOf(r.st.locals) && OwnObjects(n.st.locals)
  {
    hide *;
    var st := r.st;
    ProcessedIs(r);
    CreatedObjects(st.locals, st.buffered, st.nextUuid + |st.bufferedTargets|);
    UpdatedObjects(st.locals + CreatedSources(st.buffered, st.nextUuid + |st.bufferedTargets|),
      Sendable(st.usable, st.transmits));
  }

  lemma Unfolded(st: State)
    ensures ProcessedLocals(st) == UpdatedLast(st.locals + CreatedSources(st.buffered,
      st.nextUuid + |st.bufferedTargets|), Sendable(st.usable, st.transmits))
  {
    hide UpdatedLast, CreatedSources, Sendable;
  }

  lemma CreatedObjects(ss: seq<Source>, rs: seq<SourceRegistration>, uuid: Uuid)
    requires OwnObjects(ss)
    ensures ObjectsOf(ss + CreatedSources(rs, uuid)) == ObjectsOf(ss) && OwnObjects(ss + CreatedSources(rs, uuid))
  {
    var cs := CreatedSources(rs, uuid);
    assert forall s :: s in ss + cs <==> s in ss || s in cs;
    assert forall s :: s in cs ==> s.obj.None?;
  }

  lemma UpdatedObjects(ss: seq<Source>, sent: seq<Transmit>)
    requires OwnObjects(ss)
    ensures ObjectsOf(UpdatedLast(ss, sent)) == ObjectsOf(ss) && OwnObjects(UpdatedLast(ss, sent))
  {
    var now := UpdatedLast(ss, sent);
    forall s | s in now ensures exists l :: l in ss && s == Updated(l, sent) && l.obj == s.obj {
      var i :| 0 <= i < |now| && now[i] == s;
      assert ss[i] in ss;
    }
    forall l | l in ss ensures exists s :: s in now && l.obj == s.obj {
      var i :| 0 <= i < |ss| && ss[i] == l;
      assert now[i] in now;
    }
    hide Updated, UpdatedLast;
  }

  lemma AccountedStep(r: Run, trail: seq<Entry>, step: Step)
    requires Accounted(r, trail) && Invariant(r)
    requires step.Reserved? ==> IsNew(trail, r, step)
    ensures Accounted(Next(r, step), trail + [Entry(r, step)])
  {
    if step.ResetAll? {
      AccountedReset(r, trail);
    } else {
      hide Next, Operation, Kept, Made, Accounted, Invariant;
      if step.Reserved? {
        AccountedReserved(r, trail, step.uuid, step.obj);
      } else if step.Unregister? {
        AccountedUnregister(r, trail, step.handle);
      } else {
        assert OwnObjects(r.st.locals) by { OwnsObjects(r, trail); }
        hide OwnObjects, ObjectsOf;
        if step.Process? { ProcessedObjects(r); } else { SourcesStay(r, step); }
        NoObjects(r, step);
        AccountedSame(r, trail, step);
      }
    }
  }

  lemma OwnsObjects(r: Run, trail: seq<Entry>)
    requires Accounted(r, trail)
    ensures OwnObjects(r.st.locals)
  {
  }

  lemma AccountedReset(r: Run, trail: seq<Entry>)
    ensures Accounted(Next(r, ResetAll), trail + [Entry(r, ResetAll)])
  {
    MadeMore(trail, r, ResetAll);
    LeftBehindMore(trail, r, ResetAll);
    hide Made, LeftBehind;
  }

  lemma NoObjectsIn(all: seq<RtiCall>, targets: seq<RtiCall>, sources: seq<RtiCall>, data: seq<RtiCall>)
    requires all == targets + sources + data
    requires forall c :: c in targets ==> c.Reserve? || c.RequestData?
    requires (forall c :: c in sources ==> c.Reserve?) && (forall c :: c in data ==> c.UpdateData?)
    ensures forall c :: c in all ==> !c.RegisterObject? && !c.DeleteObject?
  {
  }

  lemma ProcessNoObjects(r: Run)
    requires Invariant(r)
    ensures forall c :: c in ProcessBuffers(r.st).calls ==> !c.RegisterObject? && !c.DeleteObject?
  {
    hide *;
    UsableHaveObjects(r) by { Parted(r); }
    var targets, sources, data := ProcessedCalls(r.st);
    CreatingTargetsHandsNothing(r.st, r.st.bufferedTargets);
    NoObjectsIn(ProcessBuffers(r.st).calls, targets, sources, data);
  }

  lemma NoObjects(r: Run, step: Step)
    requires Invariant(r) && !step.ResetAll? && !step.Reserved? && !step.Unregister?
    ensures forall c :: c in Operation(r.st, step).calls ==> !c.RegisterObject? && !c.DeleteObject?
  {
    if step.Process? {
      ProcessNoObjects(r);
      hide Invariant, ProcessBuffers;
    } else {
      hide Operation, Invariant;
      CallsOfStep(r.st, step);
    }
  }

  lemma NewGiven(trail: seq<Entry>)
    requires trail != [] && GivesNew(trail)
    ensures GivesNew(trail[..|trail| - 1])
    ensures var x := trail[|trail| - 1]; x.step.Reserved? ==> IsNew(trail[..|trail| - 1], x.before, x.step)
  {
    hide IsNew;
    var n := |trail| - 1;
    forall i | 0 <= i < n && trail[..n][i].step.Reserved?
      ensures IsNew(trail[..n][..i], trail[..n][i].before, trail[..n][i].step)
    {
      assert trail[..n][..i] == trail[..i];
      assert trail[i].step.Reserved?;
    }
  }

  /** In every run the objects registered and not deleted since the last reset are those of the local
      sources and those left behind, the objects of sources that were unregistered before going online;
      so they are the local sources' exactly when no object was left behind. */
  lemma {:induction false} ObjectsAccounted(r: Run, trail: seq<Entry>, discoverers: set<string>)
    requires Traced(r, trail, discoverers) && GivesNew(trail)
    ensures Kept(Made(trail)) == ObjectsOf(r.st.locals) + LeftBehind(trail)
    ensures Kept(Made(trail)) == ObjectsOf(r.st.locals) <==> LeftBehind(trail) == {}
    ensures Accounted(r, trail)
    decreases |trail|
  {
    hide Traced, Invariant, Next, Enabled, Remotes, Lined, GivesNew, Kept, Made, ObjectsOf, LeftBehind;
    TracedFront(r, trail, discoverers);
    if trail == [] {
      AccountedStart(discoverers);
    } else {
      var n := |trail| - 1;
      NewGiven(trail);
      ObjectsAccounted(trail[n].before, trail[..n], discoverers);
      TracedReached(trail[n].before, trail[..n], discoverers);
      AccountedStep(trail[n].before, trail[..n], trail[n].step);
    }
  }

  lemma AccountedStart(discoverers: set<string>)
    ensures Accounted(Start(discoverers), [])
  {
  }

  // ----- Objects unsubscribed from -----

  /** Whether the federate is unsubscribed from an object after these calls, given whether it was before:
      a request for its data subscribes again. */
  predicate Silenced(before: bool, calls: seq<RtiCall>, obj: Object) {
    if calls == [] then before else
      var c := calls[|calls| - 1];
      if c == Unsubscribe(obj) then true
      else if c == RequestData(obj) then false
      else Silenced(before, calls[..|calls| - 1], obj)
  }

  /** Whether the federate is unsubscribed from an object, since it exists. */
  predicate Silent(trail: seq<Entry>, obj: Object) {
    if trail == [] then false else
      var x := trail[|trail| - 1];
      if x.step.ResetAll? || x.step == SourceRemoved(obj) then false
      else Silenced(Silent(trail[..|trail| - 1], obj), Operation(x.before.st, x.step).calls, obj)
  }

  predicate Wants(rs: seq<TargetRegistration>, name: string) {
    exists q :: q in rs && q.name == name
  }

  predicate HasNamesake(ts: seq<Target>, name: string) {
    exists t :: t in ts && t.name == name
  }

  /** A known source without a local target of its name is unsubscribed; one with a local target of its
      name and connection type is not; and an object not known is not. */
  ghost predicate Subscribes(r: Run, trail: seq<Entry>, obj: Object) {
    if obj in r.st.remoteIndex then
      var x := r.st.remoteIndex[obj];
      && (!HasNamesake(r.st.localTargets, x.name) ==> Silent(trail, obj))
      && (HasLocalTarget(r.st.localTargets, x.name, x.conn) ==> !Silent(trail, obj))
    else !Silent(trail, obj)
  }

  lemma SilentMore(trail: seq<Entry>, r: Run, step: Step, obj: Object)
    ensures Silent(trail + [Entry(r, step)], obj) ==
      (!step.ResetAll? && step != SourceRemoved(obj) && Silenced(Silent(trail, obj), Operation(r.st, step).calls, obj))
  {
    hide Operation, Silenced;
    assert (trail + [Entry(r, step)])[..|trail|] == trail;
  }

  lemma {:induction false} NeverUnsubscribed(before: bool, calls: seq<RtiCall>, obj: Object)
    requires Unsubscribe(obj) !in calls
    ensures Silenced(before, calls, obj) == (before && RequestData(obj) !in calls)
  {
    if calls != [] {
      var n := |calls| - 1;
      NeverUnsubscribed(before, calls[..n], obj);
      assert forall c :: c in calls <==> c in calls[..n] || c == calls[n];
    }
  }

  lemma {:induction false} RequestedFor(rs: seq<Remote>, name: string, obj: Object)
    ensures RequestData(obj) in RequestsFor(rs, name) <==> exists x :: x in rs && x.obj == obj && x.name == name
    ensures forall c :: c in RequestsFor(rs, name) ==> c.RequestData?
  {
    if rs != [] {
      RequestedFor(rs[1..], name, obj);
      assert forall x :: x in rs <==> x == rs[0] || x in rs[1..];
    }
  }

  /** Creating targets asks for the data of an object exactly if one is for the name of its source. */
  lemma {:induction false} TargetsRequest(st: State, rs: seq<TargetRegistration>, obj: Object)
    ensures RequestData(obj) in CreateTargets(st, rs).calls <==>
      exists r, x :: r in rs && x in st.remotes && x.obj == obj && x.name == r.name
  {
    if rs != [] {
      var n := |rs| - 1;
      hide CreateTargets, CreateTarget, RequestsFor;
      TargetsRequest(st, rs[..n], obj);
      TargetsSnoc(st, rs);
      TargetReserves(st, rs[..n], rs[n]);
      RequestedFor(st.remotes, rs[n].name, obj);
      assert forall r :: r in rs <==> r in rs[..n] || r == rs[n];
    }
  }

  lemma RequestedByTargets(all: seq<RtiCall>, targets: seq<RtiCall>, sources: seq<RtiCall>, data: seq<RtiCall>,
      obj: Object)
    requires all == targets + sources + data
    requires forall c :: c in targets ==> c.Reserve? || c.RequestData?
    requires (forall c :: c in sources ==> c.Reserve?) && (forall c :: c in data ==> c.UpdateData?)
    ensures Unsubscribe(obj) !in all && (RequestData(obj) in all <==> RequestData(obj) in targets)
  {
  }

  lemma IndexedName(rs: seq<TargetRegistration>, remotes: seq<Remote>, index: map<Object, Remote>, obj: Object)
    requires Agree(remotes, index)
    ensures (exists r, x :: r in rs && x in remotes && x.obj == obj && x.name == r.name) <==>
      obj in index && Wants(rs, index[obj].name)
  {
    hide Distinct;
  }

  lemma ProcessRequests(r: Run, obj: Object)
    requires Invariant(r) && Agree(r.st.remotes, r.st.remoteIndex)
    ensures var calls := ProcessBuffers(r.st).calls;
      && Unsubscribe(obj) !in calls
      && (RequestData(obj) in calls <==>
            obj in r.st.remoteIndex && Wants(r.st.bufferedTargets, r.st.remoteIndex[obj].name))
  {
    hide *;
    UsableHaveObjects(r) by { Parted(r); }
    var targets, sources, data := ProcessedCalls(r.st);
    CreatingTargetsHandsNothing(r.st, r.st.bufferedTargets);
    TargetsRequest(r.st, r.st.bufferedTargets, obj);
    RequestedByTargets(ProcessBuffers(r.st).calls, targets, sources, data, obj);
    IndexedName(r.st.bufferedTargets, r.st.remotes, r.st.remoteIndex, obj);
  }

  lemma ProcessedNamesakes(ts: seq<Target>, rs: seq<TargetRegistration>, uuid: Uuid, name: string, conn: string)
    ensures HasNamesake(ts + CreatedTargets(rs, uuid), name) <==> HasNamesake(ts, name) || Wants(rs, name)
    ensures HasLocalTarget(ts + CreatedTargets(rs, uuid), name, conn) ==>
      HasLocalTarget(ts, name, conn) || Wants(rs, name)
  {
    var cs := CreatedTargets(rs, uuid);
    var all := ts + cs;
    assert forall t :: t in all <==> t in ts || t in cs;
    if Wants(rs, name) {
      var q :| q in rs && q.name == name;
      var i :| 0 <= i < |rs| && rs[i] == q;
      assert cs[i] in cs && cs[i].name == name;
    }
    forall t | t in cs && t.name == name ensures Wants(rs, name) {
      var i :| 0 <= i < |cs| && cs[i] == t;
      assert rs[i] in rs;
    }
    if HasLocalTarget(all, name, conn) {
      var i :| 0 <= i < |all| && all[i].name == name && all[i].conn == conn;
      if i < |ts| { assert ts[i] == all[i]; } else { assert all[i] == cs[i - |ts|] && cs[i - |ts|] in cs; }
    }
  }

  lemma SubscribesProcess(r: Run, trail: seq<Entry>, obj: Object)
    requires Subscribes(r, trail, obj) && Invariant(r) && Remotes(r)
    ensures Subscribes(Next(r, Process), trail + [Entry(r, Process)], obj)
  {
    var n := Next(r, Process);
    ProcessedIndex(r);
    SilentMore(trail, r, Process, obj);
    assert Agree(r.st.remotes, r.st.remoteIndex) by { BothAgree(r); }
    hide Invariant, Remotes, Next, Silent, HasNamesake, HasLocalTarget, CreatedTargets, Silenced, ProcessBuffers, Wants,
      Agree;
    ProcessedTargets(r);
    ProcessRequests(r, obj);
    NeverUnsubscribed(Silent(trail, obj), ProcessBuffers(r.st).calls, obj);
    if obj in r.st.remoteIndex {
      var x := r.st.remoteIndex[obj];
      ProcessedNamesakes(r.st.localTargets, r.st.bufferedTargets, r.st.nextUuid, x.name, x.conn);
    }
  }

  lemma ProcessedIndex(r: Run)
    requires Invariant(r)
    ensures Next(r, Process).st.remoteIndex == r.st.remoteIndex
    ensures Operation(r.st, Process) == ProcessBuffers(r.st)
  {
    hide Invariant, ProcessBuffers;
    ProcessKeepsRemotes(r);
  }

  lemma NothingAsked(st: State, step: Step, obj: Object)
    requires !step.Process? && !step.SourceUpdate?
    ensures var calls := Operation(st, step).calls; Unsubscribe(obj) !in calls && RequestData(obj) !in calls
  {
    hide Operation;
    CallsOfStep(st, step);
  }

  /** Another step keeps the known sources and the local targets, and makes no call about subscriptions. */
  lemma SubscribesOther(r: Run, trail: seq<Entry>, step: Step, obj: Object)
    requires Subscribes(r, trail, obj) && Invariant(r)
    requires !step.Process? && !step.ResetAll? && !step.SourceUpdate? && !step.SourceRemoved?
    ensures Subscribes(Next(r, step), trail + [Entry(r, step)], obj)
  {
    hide Invariant, Next, Silent, Silenced, Operation, HasNamesake, HasLocalTarget;
    SilentMore(trail, r, step, obj);
    IndexStays(r, step);
    TargetsStay(r, step);
    NothingAsked(r.st, step, obj);
    NeverUnsubscribed(Silent(trail, obj), Operation(r.st, step).calls, obj);
  }

  lemma IndexStays(r: Run, step: Step)
    requires Invariant(r) && !step.ResetAll? && !step.SourceUpdate? && !step.SourceRemoved?
    ensures Next(r, step).st.remoteIndex == r.st.remoteIndex
  {
    if step.TargetUpdate? || step.TargetRemoved? {
      hide Invariant, FindRemote;
    } else {
      hide Invariant, Operation;
      OthersKeepRemotes(r, step);
    }
  }

  lemma UpdateCalls(st: State, obj: Object, attrs: Attributes)
    ensures var e := HandleSourceUpdate(st, obj, attrs);
      if attrs.identity.Some? && obj !in st.remoteIndex then
        var (name, conn) := attrs.identity.value;
        && e.st.remoteIndex == st.remoteIndex[obj := Remote(name, conn, obj)]
        && e.calls == if HasLocalTarget(st.localTargets, name, conn) then [] else [Unsubscribe(obj)]
      else e.st.remoteIndex == st.remoteIndex && e.calls == []
  {
    hide HasLocalTarget, RunCallback;
  }

  lemma SubscribesUpdate(r: Run, trail: seq<Entry>, from: Object, attrs: Attributes, obj: Object)
    requires Subscribes(r, trail, obj)
    ensures Subscribes(Next(r, SourceUpdate(from, attrs)), trail + [Entry(r, SourceUpdate(from, attrs))], obj)
  {
    var step := SourceUpdate(from, attrs);
    SilentMore(trail, r, step, obj);
    TargetsStay(r, step);
    UpdateCalls(r.st, from, attrs);
    assert Operation(r.st, step) == HandleSourceUpdate(r.st, from, attrs)
      && Next(r, step).st == HandleSourceUpdate(r.st, from, attrs).st by { hide HandleSourceUpdate; }
    hide Next, Silent, HandleSourceUpdate, Operation;
    if obj == from && attrs.identity.Some? && obj !in r.st.remoteIndex {
      var (name, conn) := attrs.identity.value;
      if HasLocalTarget(r.st.localTargets, name, conn) { IsNamesake(r.st.localTargets, name, conn); }
    } else {
      NeverUnsubscribed(Silent(trail, obj), HandleSourceUpdate(r.st, from, attrs).calls, obj);
      hide HasLocalTarget, HasNamesake, Silenced;
    }
  }

  lemma IsNamesake(ts: seq<Target>, name: string, conn: string)
    requires HasLocalTarget(ts, name, conn)
    ensures HasNamesake(ts, name)
  {
    var i :| 0 <= i < |ts| && ts[i].name == name;
    assert ts[i] in ts;
  }

  lemma RemovedIndex(r: Run, gone: Object)
    requires Agree(r.st.remotes, r.st.remoteIndex)
    ensures Next(r, SourceRemoved(gone)).st.remoteIndex == r.st.remoteIndex - {gone}
  {
    hide Agree, RemoveSourceObject;
    SourceRemovedIndex(r.st, gone);
  }

  lemma SubscribesRemoved(r: Run, trail: seq<Entry>, gone: Object, obj: Object)
    requires Subscribes(r, trail, obj) && Remotes(r)
    ensures Subscribes(Next(r, SourceRemoved(gone)), trail + [Entry(r, SourceRemoved(gone))], obj)
  {
    hide Next, Silent, Silenced, Operation, Agree, Remotes, HasLocalTarget, HasNamesake;
    BothAgree(r);
    SilentMore(trail, r, SourceRemoved(gone), obj);
    TargetsStay(r, SourceRemoved(gone));
    RemovedIndex(r, gone);
    NothingAsked(r.st, SourceRemoved(gone), obj);
    NeverUnsubscribed(Silent(trail, obj), Operation(r.st, SourceRemoved(gone)).calls, obj);
  }

  lemma SubscribesStep(r: Run, trail: seq<Entry>, step: Step, obj: Object)
    requires Subscribes(r, trail, obj) && Invariant(r) && Remotes(r)
    ensures Subscribes(Next(r, step), trail + [Entry(r, step)], obj)
  {
    hide Subscribes, Invariant, Remotes, Next;
    if step.ResetAll? {
      SubscribesReset(r, trail, obj);
    } else if step.Process? {
      SubscribesProcess(r, trail, obj);
    } else if step.SourceUpdate? {
      SubscribesUpdate(r, trail, step.obj, step.attrs, obj);
    } else if step.SourceRemoved? {
      SubscribesRemoved(r, trail, step.obj, obj);
    } else {
      SubscribesOther(r, trail, step, obj);
    }
  }

  lemma SubscribesReset(r: Run, trail: seq<Entry>, obj: Object)
    ensures Subscribes(Next(r, ResetAll), trail + [Entry(r, ResetAll)], obj)
  {
    SilentMore(trail, r, ResetAll, obj);
    hide Silent, Silenced, SavedLast;
  }

  /** In every run the federate is unsubscribed from a source it knows as long as it has no local target of
      its name, and subscribed once it has one of its name and connection type. */
  lemma {:induction false} UnsubscribedUntilWanted(r: Run, trail: seq<Entry>, discoverers: set<string>, obj: Object)
    requires Traced(r, trail, discoverers)
    ensures Subscribes(r, trail, obj)
    decreases |trail|
  {
    hide Traced, Invariant, Next, Enabled, Remotes, Lined, Subscribes;
    TracedFront(r, trail, discoverers);
    if trail == [] {
      SubscribesStart(discoverers, obj);
    } else {
      var n := |trail| - 1;
      UnsubscribedUntilWanted(trail[n].before, trail[..n], discoverers, obj);
      TracedReached(trail[n].before, trail[..n], discoverers);
      SubscribesStep(trail[n].before, trail[..n], trail[n].step, obj);
    }
  }

  lemma SubscribesStart(discoverers: set<string>, obj: Object)
    ensures Subscribes(Start(discoverers), [], obj)
  {
  }
}

/** A run in which an object stays registered although its source was unregistered. */
module LeftObjects {
  import opened Wrappers
  import opened DOModel
  import opened DORuns
  import opened DOInvariants
  import opened DOCalls
  import E = EmptyPayloads

  lemma TracedMore(r: Run, trail: seq<Entry>, discoverers: set<string>, step: Step)
    requires Traced(r, trail, discoverers) && Enabled(r, step)
    ensures Traced(Next(r, step), trail + [Entry(r, step)], discoverers)
  {
    hide Enabled, Next;
    assert (trail + [Entry(r, step)])[..|trail|] == trail;
  }

  lemma GivesNewMore(trail: seq<Entry>, r: Run, step: Step)
    requires GivesNew(trail) && (step.Reserved? ==> IsNew(trail, r, step))
    ensures GivesNew(trail + [Entry(r, step)])
  {
    hide IsNew;
    var all := trail + [Entry(r, step)];
    forall i | 0 <= i < |all| && all[i].step.Reserved? ensures IsNew(all[..i], all[i].before, all[i].step) {
      assert all[..i] == trail[..i] && trail[..|trail|] == trail;
    }
  }

  lemma {:induction false} NothingLeft(trail: seq<Entry>)
    requires forall x :: x in trail ==> !x.step.Unregister?
    ensures LeftBehind(trail) == {}
  {
    if trail != [] { NothingLeft(trail[..|trail| - 1]); }
  }

  /** A federate that joined, with one source whose object is not registered yet. */
  function Awaiting(name: string, conn: string): Run {
    var r := E.OneSource(name, conn, [], [], 0);
    r.(joined := true, st := r.st.(phase := InitFederate, nextUuid := 1,
      locals := [Source(name, 0, conn, 1, None, [])]))
  }

  lemma RegisteredFirst(name: string, conn: string)
    ensures Reachable(E.OneSource(name, conn, [], [], 0), [Register(name, conn)], {})
  {
    assert Reachable(Start({}), [], {}) && Enabled(Start({}), Register(name, conn));
    assert Next(Start({}), Register(name, conn)) == E.OneSource(name, conn, [], [], 0);
    hide *;
    ReachedMore(Start({}), [], {}, Register(name, conn));
    assert [] + [Register(name, conn)] == [Register(name, conn)];
  }

  lemma JoinedFirst(name: string, conn: string) returns (b: Run)
    ensures var r := E.OneSource(name, conn, [], [], 0);
      && Enabled(r, EnterInitFederate) && Enabled(Next(r, EnterInitFederate), Join)
      && Next(Next(r, EnterInitFederate), Join) == b && Enabled(b, Process) && Next(b, Process) == Awaiting(name, conn)
  {
    E.Entered(name, conn, [], [], 0);
    E.Created(name, conn, [], [], 0);
    var r := E.OneSource(name, conn, [], [], 0);
    b := r.(joined := true, st := r.st.(phase := InitFederate, buffered := r.st.persistent));
    hide Next;
  }

  lemma AwaitingReached(name: string, conn: string)
    ensures Reachable(Awaiting(name, conn), AwaitingSteps(name, conn), {})
  {
    hide *;
    var r := E.OneSource(name, conn, [], [], 0);
    RegisteredFirst(name, conn);
    var b := JoinedFirst(name, conn);
    ReachedMore(r, [Register(name, conn)], {}, EnterInitFederate);
    ReachedMore(Next(r, EnterInitFederate), [Register(name, conn)] + [EnterInitFederate], {}, Join);
    ReachedMore(b, [Register(name, conn)] + [EnterInitFederate] + [Join], {}, Process);
    TheseSteps(name, conn);
  }

  function AwaitingSteps(name: string, conn: string): seq<Step> {
    [Register(name, conn), EnterInitFederate, Join, Process]
  }

  lemma TheseSteps(name: string, conn: string)
    ensures AwaitingSteps(name, conn) == [Register(name, conn)] + [EnterInitFederate] + [Join] + [Process]
    ensures forall step :: step in AwaitingSteps(name, conn) ==> !step.Reserved? && !step.Unregister?
  {
  }

  lemma AwaitingKeeps(name: string, conn: string, trail: seq<Entry>)
    requires Traced(Awaiting(name, conn), trail, {})
    requires forall step :: step in StepsOf(trail) ==> !step.Reserved? && !step.Unregister?
    ensures GivesNew(trail) && Kept(Made(trail)) == {} && LeftBehind(trail) == {}
  {
    forall x | x in trail ensures !x.step.Reserved? && !x.step.Unregister? {
      var i :| 0 <= i < |trail| && trail[i] == x;
      assert StepsOf(trail)[i] in StepsOf(trail);
    }
    hide Traced, Kept, Made;
    assert GivesNew(trail);
    NothingLeft(trail);
    ObjectsAccounted(Awaiting(name, conn), trail, {});
    assert ObjectsOf(Awaiting(name, conn).st.locals) == {};
  }

  lemma UsableUnregistered(name: string, conn: string)
    ensures var u := E.OneUsable(name, conn, [], [], 0);
      && Enabled(u, Unregister(1)) && !u.st.phase.Online? && ObjectsFor(u.st.locals, 1) == {1}
      && Next(u, Unregister(1)).st.locals == []
  {
    var u := E.OneUsable(name, conn, [], [], 0);
    var s := u.st.locals[0];
    assert s in u.st.locals && u.st.persistent[0] in u.st.persistent;
    assert FindLocal(u.st.locals, 1) == Some(s);
    hide FindLocal;
  }

  lemma LastIsLeft(r: Run, trail: seq<Entry>)
    requires Traced(r, trail, {}) && GivesNew(trail) && r.st.locals == []
    ensures Kept(Made(trail)) == LeftBehind(trail)
  {
    hide Traced, GivesNew, Kept, Made, LeftBehind;
    ObjectsAccounted(r, trail, {});
    assert ObjectsOf([]) == {};
  }

  lemma AwaitingObject(name: string, conn: string, trail: seq<Entry>)
    requires Kept(Made(trail)) == {}
    ensures IsNew(trail, Awaiting(name, conn), Reserved(0, 1))
    ensures Enabled(Awaiting(name, conn), Reserved(0, 1))
      && Next(Awaiting(name, conn), Reserved(0, 1)) == E.OneUsable(name, conn, [], [], 0)
  {
    E.ObjectReserved(name, conn, [], [], 0);
    hide Next, Enabled;
  }

  /** A federate that registers a source, joins, has its object registered and unregisters the source
      before going online: the object stays registered, of no local source. */
  lemma StaysBehind(name: string, conn: string) returns (r: Run, trail: seq<Entry>)
    ensures Traced(r, trail, {}) && GivesNew(trail)
    ensures r.st.locals == [] && Kept(Made(trail)) == {1}
  {
    hide *;
    var a, u := Awaiting(name, conn), E.OneUsable(name, conn, [], [], 0);
    AwaitingReached(name, conn);
    TheseSteps(name, conn);
    trail := TrailOf(a, AwaitingSteps(name, conn), {});
    AwaitingKeeps(name, conn, trail);
    AwaitingObject(name, conn, trail);
    TracedMore(a, trail, {}, Reserved(0, 1));
    GivesNewMore(trail, a, Reserved(0, 1));
    LeftBehindMore(trail, a, Reserved(0, 1));
    trail := trail + [Entry(a, Reserved(0, 1))];
    UsableUnregistered(name, conn);
    TracedMore(u, trail, {}, Unregister(1));
    GivesNewMore(trail, u, Unregister(1));
    LeftBehindMore(trail, u, Unregister(1));
    trail := trail + [Entry(u, Unregister(1))];
    r := Next(u, Unregister(1));
    LastIsLeft(r, trail);
  }
}

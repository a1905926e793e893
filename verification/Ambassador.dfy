/** The life cycle of a federate: what Connect, Disconnect and the callbacks of the RTI do to the
    state of the ambassador, and the order in which services join, are reset and go online. */
module Ambassador {
  import opened Wrappers
  import opened Federations

  const INITIALIZED := "Initialized"
  const SYNCHRONIZED := "Synchronized"
  const STOPPED := "Stopped"

  datatype AmbassadorState =
    | Offline | AmbassadorAvailable | ScanForFederationPrefix | CreateFederation | JoinFederation | FoundFederation
    | JoinedFederation | InitFederate | WaitForMeasurementInit | Online | ReceivedMeasurementStop
    | ReceivedMeasurementInit | FederationSynchronized | ConnectionLost

  datatype CreateFederationResult = CreatedFederation | FederationAlreadyExists | Error

  datatype Config = Config(prefix: string, waitForMeasurementInit: bool, rejoinOnMeasurementStop: bool)

  /** What happened, as far as the order of joining and resetting is concerned. */
  datatype Event = ServicesJoined | ServicesReset | InitReceived | InitializedReached | WentOnline

  datatype Amb = Amb(
    state: AmbassadorState, index: int, name: string,
    announcedInitialized: bool, announcedSynchronized: bool, announcedStopped: bool,
    listed: bool, list: seq<string>, created: CreateFederationResult, trace: seq<Event>)

  /** The callbacks of the RTI that the ambassador acts on. */
  datatype Callback =
    | Announce(point: string)
    | Synchronized(point: string)
    | MeasurementInit
    | MeasurementStop
    | LostConnection
    | Federations(names: seq<string>)
    | Other

  /** What the RTI answers during one Connect, and the callbacks it delivers in each waiting loop. */
  datatype Answers = Answers(
    ambassadorCreated: bool, connected: bool, listing: seq<Callback>, creation: CreateFederationResult, joined: bool,
    announcing: seq<Callback>, joining: seq<Callback>, waiting: seq<Callback>, achieved: bool,
      synchronizing: seq<Callback>)

  function Deliver(c: Config, a: Amb, cb: Callback): Amb {
    match cb
    case Announce(point) =>
      if point == INITIALIZED then a.(announcedInitialized := true)
      else if point == SYNCHRONIZED then a.(announcedSynchronized := true)
      else if point == STOPPED then a.(announcedStopped := true)
      else a
    case Synchronized(point) =>
      if point != INITIALIZED then a
      else a.(trace := a.trace + [InitializedReached], state := if c.waitForMeasurementInit then
        FederationSynchronized else a.state)
    case MeasurementInit =>
      a.(trace := a.trace + [InitReceived],
         state := if c.waitForMeasurementInit && a.state.WaitForMeasurementInit? then ReceivedMeasurementInit
           else a.state)
    case MeasurementStop => if c.rejoinOnMeasurementStop then a.(state := ReceivedMeasurementStop) else a
    case LostConnection => a.(state := ConnectionLost)
    case Federations(names) => a.(listed := true, list := names)
    case Other => a
  }

  function DeliverAll(c: Config, a: Amb, cbs: seq<Callback>): Amb
    decreases |cbs|
  {
    if cbs == [] then a else DeliverAll(c, Deliver(c, a, cbs[0]), cbs[1..])
  }

  /** What a waiting loop waits for. */
  datatype Goal = Listed | AnyAnnounced | InitTaken | StartSynchronized

  predicate Reached(a: Amb, goal: Goal) {
    match goal
    case Listed => a.listed
    case AnyAnnounced => a.announcedInitialized || a.announcedSynchronized || a.announcedStopped
    case InitTaken => a.state.ReceivedMeasurementInit?
    case StartSynchronized => a.state.FederationSynchronized?
  }

  /** Callbacks are evoked until the goal is reached; if they run out before, the loop still waits. */
  function EvokeUntil(c: Config, a: Amb, goal: Goal, cbs: seq<Callback>): Amb
    decreases |cbs|
  {
    if Reached(a, goal) || cbs == [] then a else EvokeUntil(c, Deliver(c, a, cbs[0]), goal, cbs[1..])
  }

  // ----- The steps of Connect -----

  /** Where a step of Connect leaves the ambassador, and whether Connect returned or waits there. */
  datatype Progress = Go(a: Amb) | Stop(a: Amb) | Wait(a: Amb)

  function ResetServices(a: Amb): Amb {
    a.(trace := a.trace + [ServicesReset])
  }

  function ResetRemoteAmbassador(a: Amb): Amb {
    a.(listed := false, announcedInitialized := false, announcedSynchronized := false, announcedStopped := false,
      created := Error)
  }

  function ResetFederationMemory(a: Amb): Amb {
    a.(index := -1, name := "")
  }

  function HandleConnectionLost(a: Amb): Amb {
    ResetFederationMemory(ResetRemoteAmbassador(ResetServices(a)))
  }

  function ResetOnMeasurementStop(a: Amb): Amb {
    ResetRemoteAmbassador(ResetServices(a))
  }

  /** The latest listed federation whose name starts with the prefix. */
  function Latest(prefix: string, list: seq<string>): (r: Option<string>)
    ensures r.Some? ==> prefix <= r.value && r.value in list
    ensures r.None? ==> forall s :: s in list ==> !(prefix <= s)
  {
    if list == [] then None
    else
      assert list == list[..|list| - 1] + [list[|list| - 1]];
      if prefix <= list[|list| - 1] then Some(list[|list| - 1]) else Latest(prefix, list[..|list| - 1])
  }

  function Reversed(list: seq<string>): (r: seq<string>)
    ensures |r| == |list| && forall i :: 0 <= i < |list| ==> r[i] == list[|list| - 1 - i]
  {
    seq(|list|, i requires 0 <= i < |list| => list[|list| - 1 - i])
  }

  /** The list is reversed to look for the latest federation. */
  function UpdateFederationNameAndIndex(c: Config, a: Amb): Amb {
    var index := NextIndex(c.prefix, a.index, a.name, Latest(c.prefix, a.list));
    a.(index := index, name := Name(c.prefix, index), list := Reversed(a.list))
  }

  function HandleDeadFederation(c: Config, a: Amb): Amb {
    var index := Bumped(a.index);
    a.(index := index, name := DeadName(c.prefix, index))
  }

  function LeaveLost(a: Amb): Amb {
    if a.state.ConnectionLost? then HandleConnectionLost(a).(state := Offline) else a
  }

  function Reconnect(a: Amb, e: Answers): Amb {
    var b := if a.state.Offline? && e.ambassadorCreated then a.(state := AmbassadorAvailable) else a;
    var d := if b.state.AmbassadorAvailable? && e.connected then b.(state := ScanForFederationPrefix) else b;
    if d.state.ReceivedMeasurementStop? then ResetOnMeasurementStop(d).(state := ScanForFederationPrefix) else d
  }

  function Scan(c: Config, a: Amb, e: Answers): Progress {
    if !a.state.ScanForFederationPrefix? then Go(a) else
      var b := EvokeUntil(c, a.(listed := false), Listed, e.listing);
      if b.listed then Go(UpdateFederationNameAndIndex(c, b).(state := CreateFederation)) else Wait(b)
  }

  function CreateAndJoin(a: Amb, e: Answers): Amb {
    var b := if a.state.CreateFederation? then
        var x := a.(created := e.creation); if e.creation.Error? then x else x.(state := JoinFederation)
      else a;
    if b.state.JoinFederation? && e.joined then b.(state := JoinedFederation) else b
  }

  function Announced(c: Config, a: Amb, e: Answers): Progress {
    if !a.state.JoinedFederation? then Go(a)
    else if a.created.CreatedFederation? then
      var b := EvokeUntil(c, a.(announcedInitialized := false, announcedSynchronized := false,
        announcedStopped := false), AnyAnnounced, e.announcing);
      if Reached(b, AnyAnnounced) then Go(b.(state := InitFederate)) else Wait(b)
    else
      var b := DeliverAll(c, a, e.announcing);
      if b.announcedInitialized || b.announcedSynchronized || b.announcedStopped then Go(b.(state := InitFederate))
      else Go(HandleDeadFederation(c, b).(state := CreateFederation))
  }

  /** The services join; callbacks delivered meanwhile do not keep the federate from going on. */
  function Init(c: Config, a: Amb, e: Answers): Amb {
    if !a.state.InitFederate? then a else
      var b := DeliverAll(c, a.(trace := a.trace + [ServicesJoined]), e.joining);
      if c.waitForMeasurementInit then b.(state := WaitForMeasurementInit)
      else b.(state := Online, trace := b.trace + [WentOnline])
  }

  function AwaitStart(c: Config, a: Amb, e: Answers): Progress {
    if !(c.waitForMeasurementInit && a.state.WaitForMeasurementInit?) then Go(a) else
      var b := EvokeUntil(c, a, InitTaken, e.waiting);
      if !Reached(b, InitTaken) then Wait(b)
      else if !e.achieved then Stop(b)
      else
        var d := EvokeUntil(c, b, StartSynchronized, e.synchronizing);
        if !Reached(d, StartSynchronized) then Wait(d) else Go(d.(state := Online, trace := d.trace + [WentOnline]))
  }

  function Connect(c: Config, a: Amb, e: Answers): Progress {
    var scanned := Scan(c, Reconnect(LeaveLost(a), e), e);
    if !scanned.Go? then scanned else
      var announced := Announced(c, CreateAndJoin(scanned.a, e), e);
      if !announced.Go? then announced else AwaitStart(c, Init(c, announced.a, e), e)
  }

  function Disconnect(a: Amb): Amb {
    ResetFederationMemory(ResetRemoteAmbassador(ResetServices(a))).(state := Offline)
  }

  // ----- Runs -----

  /** One federate's history; waiting says that a Connect has not returned. */
  datatype Run = Run(a: Amb, waiting: bool)

  datatype Step = Connecting(answers: Answers) | Evoking(callbacks: seq<Callback>) | Disconnecting

  function Start(): Run {
    Run(Amb(Offline, -1, "", false, false, false, false, [], Error, []), false)
  }

  function Next(c: Config, r: Run, step: Step): Run {
    match step
    case Connecting(answers) => var p := Connect(c, r.a, answers); Run(p.a, p.Wait?)
    case Evoking(callbacks) => Run(DeliverAll(c, r.a, callbacks), false)
    case Disconnecting => Run(Disconnect(r.a), false)
  }

  ghost predicate Reachable(c: Config, r: Run, steps: seq<Step>)
    decreases |steps|
  {
    if steps == [] then r == Start() else
      var n := |steps| - 1;
      exists q :: Reachable(c, q, steps[..n]) && !q.waiting && r == Next(c, q, steps[n])
  }

  // ----- The order of joining, resetting and going online -----

  function JoinedSinceReset(trace: seq<Event>): bool {
    if trace == [] then false
    else if trace[|trace| - 1].ServicesJoined? then true
    else if trace[|trace| - 1].ServicesReset? then false
    else JoinedSinceReset(trace[..|trace| - 1])
  }

  function SinceJoined(trace: seq<Event>, e: Event): bool {
    if trace == [] then false
    else if trace[|trace| - 1] == e then true
    else if trace[|trace| - 1].ServicesJoined? then false
    else SinceJoined(trace[..|trace| - 1], e)
  }

  /** The services join only after a reset since they last joined; the federate goes online only when
      they joined and were not reset since, and a federate that waits for the measurement start
      only when since then the interaction was received and the point was synchronized. */
  predicate Allowed(c: Config, trace: seq<Event>, e: Event) {
    match e
    case ServicesJoined => !JoinedSinceReset(trace)
    case WentOnline => JoinedSinceReset(trace)
      && (c.waitForMeasurementInit ==> SinceJoined(trace, InitReceived) && SinceJoined(trace, InitializedReached))
    case _ => true
  }

  predicate Disciplined(c: Config, trace: seq<Event>) {
    trace == [] || (Disciplined(c, trace[..|trace| - 1]) && Allowed(c, trace[..|trace| - 1], trace[|trace| - 1]))
  }

  lemma {:induction false} TraceSnoc(c: Config, trace: seq<Event>, e: Event)
    ensures JoinedSinceReset(trace + [e]) == (e.ServicesJoined? || (!e.ServicesReset? && JoinedSinceReset(trace)))
    ensures forall x :: SinceJoined(trace + [e], x) == (e == x || (!e.ServicesJoined? && SinceJoined(trace, x)))
    ensures Disciplined(c, trace + [e]) == (Disciplined(c, trace) && Allowed(c, trace, e))
  {
    assert (trace + [e])[..|trace|] == trace;
  }

  /** Before the services join. */
  predicate Early(s: AmbassadorState) {
    s in {Offline, AmbassadorAvailable, ScanForFederationPrefix, CreateFederation, JoinFederation, FoundFederation,
      JoinedFederation, InitFederate}
  }

  predicate Ordered(c: Config, a: Amb) {
    && Disciplined(c, a.trace)
    && (Early(a.state) ==> !JoinedSinceReset(a.trace))
    && (a.state.WaitForMeasurementInit? ==> JoinedSinceReset(a.trace))
    && (a.state.ReceivedMeasurementInit? ==> JoinedSinceReset(a.trace) && SinceJoined(a.trace, InitReceived))
  }

  lemma DeliverKeepsOrder(c: Config, a: Amb, cb: Callback)
    requires Ordered(c, a)
    ensures Ordered(c, Deliver(c, a, cb))
    ensures JoinedSinceReset(Deliver(c, a, cb).trace) == JoinedSinceReset(a.trace)
    ensures Deliver(c, a, cb).index == a.index && Deliver(c, a, cb).name == a.name
    ensures forall e :: SinceJoined(a.trace, e) ==> SinceJoined(Deliver(c, a, cb).trace, e)
    ensures Deliver(c, a, cb).state.FederationSynchronized? && !a.state.FederationSynchronized?
      ==> SinceJoined(Deliver(c, a, cb).trace, InitializedReached)
  {
    TraceSnoc(c, a.trace, InitializedReached);
    TraceSnoc(c, a.trace, InitReceived);
    hide Disciplined, JoinedSinceReset, SinceJoined;
  }

  lemma {:induction false} DeliverAllKeepsOrder(c: Config, a: Amb, cbs: seq<Callback>)
    requires Ordered(c, a)
    ensures Ordered(c, DeliverAll(c, a, cbs))
      && JoinedSinceReset(DeliverAll(c, a, cbs).trace) == JoinedSinceReset(a.trace)
    ensures DeliverAll(c, a, cbs).index == a.index && DeliverAll(c, a, cbs).name == a.name
    decreases |cbs|
  {
    if cbs != [] {
      DeliverKeepsOrder(c, a, cbs[0]);
      hide Ordered, JoinedSinceReset, SinceJoined, Deliver;
      DeliverAllKeepsOrder(c, Deliver(c, a, cbs[0]), cbs[1..]);
    }
  }

  lemma {:induction false} EvokeKeepsOrder(c: Config, a: Amb, goal: Goal, cbs: seq<Callback>)
    requires Ordered(c, a)
    ensures var b := EvokeUntil(c, a, goal, cbs);
      && Ordered(c, b) && JoinedSinceReset(b.trace) == JoinedSinceReset(a.trace)
      && (forall e :: SinceJoined(a.trace, e) ==> SinceJoined(b.trace, e))
      && (b.state.FederationSynchronized? && !a.state.FederationSynchronized? ==>
        SinceJoined(b.trace, InitializedReached))
    decreases |cbs|
  {
    if !Reached(a, goal) && cbs != [] {
      DeliverKeepsOrder(c, a, cbs[0]);
      hide Ordered, JoinedSinceReset, SinceJoined, Reached, Deliver;
      EvokeKeepsOrder(c, Deliver(c, a, cbs[0]), goal, cbs[1..]);
    }
  }

  lemma OrderedChange(c: Config, a: Amb, b: Amb)
    requires Ordered(c, a) && b.trace == a.trace && !b.state.WaitForMeasurementInit?
      && !b.state.ReceivedMeasurementInit?
    requires Early(b.state) ==> !JoinedSinceReset(a.trace)
    ensures Ordered(c, b)
  {
  }

  lemma OrderedReset(c: Config, a: Amb, b: Amb)
    requires Ordered(c, a) && b.trace == a.trace + [ServicesReset] && Early(b.state)
    ensures Ordered(c, b)
  {
    TraceSnoc(c, a.trace, ServicesReset);
  }

  lemma LeaveLostKeepsOrder(c: Config, a: Amb)
    requires Ordered(c, a)
    ensures Ordered(c, LeaveLost(a))
  {
    if a.state.ConnectionLost? { OrderedReset(c, a, LeaveLost(a)); }
  }

  lemma ReconnectKeepsOrder(c: Config, a: Amb, e: Answers)
    requires Ordered(c, a)
    ensures Ordered(c, Reconnect(a, e))
  {
    if Reconnect(a, e).trace == a.trace {
      hide Disciplined, JoinedSinceReset, SinceJoined;
    } else {
      OrderedReset(c, a, Reconnect(a, e));
    }
  }

  lemma ScanKeepsOrder(c: Config, a: Amb, e: Answers)
    requires Ordered(c, a)
    ensures Ordered(c, Scan(c, a, e).a) && !Scan(c, a, e).Stop?
  {
    if a.state.ScanForFederationPrefix? {
      var b := EvokeUntil(c, a.(listed := false), Listed, e.listing);
      assert Ordered(c, a.(listed := false)) && !JoinedSinceReset(a.trace);
      hide JoinedSinceReset, SinceJoined, Disciplined, EvokeUntil, NextIndex, Latest, Name, Reversed;
      EvokeKeepsOrder(c, a.(listed := false), Listed, e.listing);
      if b.listed {
        OrderedChange(c, b, UpdateFederationNameAndIndex(c, b).(state := CreateFederation));
      }
    }
  }

  lemma CreateAndJoinKeepsOrder(c: Config, a: Amb, e: Answers)
    requires Ordered(c, a)
    ensures Ordered(c, CreateAndJoin(a, e))
  {
    hide JoinedSinceReset, SinceJoined, Disciplined;
  }

  lemma AnnouncedKeepsOrder(c: Config, a: Amb, e: Answers)
    requires Ordered(c, a)
    ensures Ordered(c, Announced(c, a, e).a) && !Announced(c, a, e).Stop?
  {
    if a.state.JoinedFederation? {
      assert !JoinedSinceReset(a.trace);
      if a.created.CreatedFederation? {
        var x := a.(announcedInitialized := false, announcedSynchronized := false, announcedStopped := false);
        var b := EvokeUntil(c, x, AnyAnnounced, e.announcing);
        assert Ordered(c, x);
        hide JoinedSinceReset, SinceJoined, Disciplined, EvokeUntil;
        EvokeKeepsOrder(c, x, AnyAnnounced, e.announcing);
        OrderedChange(c, b, b.(state := InitFederate));
      } else {
        var b := DeliverAll(c, a, e.announcing);
        hide JoinedSinceReset, SinceJoined, Disciplined, DeliverAll, DeadName;
        DeliverAllKeepsOrder(c, a, e.announcing);
        OrderedChange(c, b, b.(state := InitFederate));
        OrderedChange(c, b, HandleDeadFederation(c, b).(state := CreateFederation));
      }
    }
  }

  lemma InitKeepsOrder(c: Config, a: Amb, e: Answers)
    requires Ordered(c, a)
    ensures Ordered(c, Init(c, a, e))
  {
    if a.state.InitFederate? {
      assert !JoinedSinceReset(a.trace);
      var x := a.(trace := a.trace + [ServicesJoined]);
      TraceSnoc(c, a.trace, ServicesJoined);
      // Seen from the services, the federate is past the early states.
      var y := x.(state := Online);
      hide JoinedSinceReset, SinceJoined, Disciplined;
      assert Ordered(c, y);
      JoiningKeepsOrder(c, x, e.joining);
      var b := DeliverAll(c, x, e.joining);
      TraceSnoc(c, b.trace, WentOnline);
    }
  }

  /** While the services join, the state is InitFederate unless a callback changes it. */
  predicate Joining(c: Config, a: Amb) {
    Disciplined(c, a.trace) && JoinedSinceReset(a.trace) && !a.state.WaitForMeasurementInit?
      && !a.state.ReceivedMeasurementInit?
  }

  lemma {:induction false} JoiningKeepsOrder(c: Config, a: Amb, cbs: seq<Callback>)
    requires Joining(c, a)
    ensures Joining(c, DeliverAll(c, a, cbs))
    decreases |cbs|
  {
    if cbs != [] {
      JoiningDelivered(c, a, cbs[0]);
      hide Joining, Deliver;
      JoiningKeepsOrder(c, Deliver(c, a, cbs[0]), cbs[1..]);
    }
  }

  lemma JoiningDelivered(c: Config, a: Amb, cb: Callback)
    requires Joining(c, a)
    ensures Joining(c, Deliver(c, a, cb))
  {
    TraceSnoc(c, a.trace, InitializedReached);
    TraceSnoc(c, a.trace, InitReceived);
    hide Disciplined, JoinedSinceReset, SinceJoined;
  }

  lemma AwaitStartKeepsOrder(c: Config, a: Amb, e: Answers)
    requires Ordered(c, a)
    ensures Ordered(c, AwaitStart(c, a, e).a)
  {
    if c.waitForMeasurementInit && a.state.WaitForMeasurementInit? {
      hide JoinedSinceReset, SinceJoined, Disciplined;
      var b := EvokeUntil(c, a, InitTaken, e.waiting);
      EvokeKeepsOrder(c, a, InitTaken, e.waiting);
      var d := EvokeUntil(c, b, StartSynchronized, e.synchronizing);
      EvokeKeepsOrder(c, b, StartSynchronized, e.synchronizing);
      hide EvokeUntil;
      TraceSnoc(c, d.trace, WentOnline);
    }
  }

  lemma ConnectKeepsOrder(c: Config, a: Amb, e: Answers)
    requires Ordered(c, a)
    ensures Ordered(c, Connect(c, a, e).a)
  {
    hide Ordered, LeaveLost, Reconnect, Scan, CreateAndJoin, Announced, Init, AwaitStart;
    LeaveLostKeepsOrder(c, a);
    ReconnectKeepsOrder(c, LeaveLost(a), e);
    var scanned := Scan(c, Reconnect(LeaveLost(a), e), e);
    ScanKeepsOrder(c, Reconnect(LeaveLost(a), e), e);
    CreateAndJoinKeepsOrder(c, scanned.a, e);
    var announced := Announced(c, CreateAndJoin(scanned.a, e), e);
    AnnouncedKeepsOrder(c, CreateAndJoin(scanned.a, e), e);
    InitKeepsOrder(c, announced.a, e);
    AwaitStartKeepsOrder(c, Init(c, announced.a, e), e);
  }

  /** In every run two rounds of joining have a reset between them, the federate goes online only
      with joined services, and a waiting federate only after the interaction and the point. */
  lemma {:induction false} OrderReached(c: Config, r: Run, steps: seq<Step>)
    requires Reachable(c, r, steps)
    ensures Ordered(c, r.a)
    decreases |steps|
  {
    if steps != [] {
      var n := |steps| - 1;
      var q :| Reachable(c, q, steps[..n]) && !q.waiting && r == Next(c, q, steps[n]);
      OrderReached(c, q, steps[..n]);
      match steps[n]
      case Connecting(answers) =>
        hide Ordered, Connect, Reachable;
        ConnectKeepsOrder(c, q.a, answers);
      case Evoking(callbacks) =>
        hide Ordered, DeliverAll, Reachable;
        DeliverAllKeepsOrder(c, q.a, callbacks);
      case Disconnecting =>
        hide Reachable;
        OrderedReset(c, q.a, Disconnect(q.a));
    }
  }

  // ----- What the order says of a trace -----

  lemma {:induction false} JoinedBetween(trace: seq<Event>, i: nat)
    requires i < |trace| && trace[i].ServicesJoined? && !JoinedSinceReset(trace)
    ensures exists k :: i < k < |trace| && trace[k].ServicesReset?
  {
    var n := |trace| - 1;
    if i < n {
      if trace[n].ServicesReset? {
      } else {
        JoinedBetween(trace[..n], i);
        var k :| i < k < n && trace[..n][k].ServicesReset?;
        assert trace[k].ServicesReset?;
      }
    }
  }

  lemma {:induction false} DisciplinedAt(c: Config, trace: seq<Event>, j: nat)
    requires Disciplined(c, trace) && j < |trace|
    ensures Allowed(c, trace[..j], trace[j])
  {
    var n := |trace| - 1;
    if j < n {
      DisciplinedAt(c, trace[..n], j);
      assert trace[..n][..j] == trace[..j];
    }
  }

  /** Between two rounds of joining the services are reset. */
  lemma ResetBetweenJoins(c: Config, r: Run, steps: seq<Step>, i: nat, j: nat)
    requires Reachable(c, r, steps) && i < j < |r.a.trace| && r.a.trace[i] == r.a.trace[j] == ServicesJoined
    ensures exists k :: i < k < j && r.a.trace[k].ServicesReset?
  {
    hide Reachable;
    OrderReached(c, r, steps);
    DisciplinedAt(c, r.a.trace, j);
    hide Disciplined, JoinedSinceReset;
    JoinedBetween(r.a.trace[..j], i);
    var k :| i < k < j && r.a.trace[..j][k].ServicesReset?;
    assert r.a.trace[k].ServicesReset?;
  }

  lemma {:induction false} LastJoined(trace: seq<Event>) returns (i: nat)
    requires JoinedSinceReset(trace)
    ensures i < |trace| && trace[i].ServicesJoined? && forall k :: i < k < |trace| ==>
      !trace[k].ServicesJoined? && !trace[k].ServicesReset?
  {
    var n := |trace| - 1;
    if trace[n].ServicesJoined? {
      i := n;
    } else {
      i := LastJoined(trace[..n]);
      assert forall k :: i < k < n ==> trace[k] == trace[..n][k];
    }
  }

  lemma {:induction false} AfterLastJoined(trace: seq<Event>, i: nat, e: Event)
    requires i < |trace| && trace[i].ServicesJoined? && !e.ServicesJoined? && SinceJoined(trace, e)
    ensures exists k :: i < k < |trace| && trace[k] == e
  {
    var n := |trace| - 1;
    if trace[n] != e {
      AfterLastJoined(trace[..n], i, e);
      var k :| i < k < n && trace[..n][k] == e;
      assert trace[k] == e;
    }
  }

  /** The federate goes online only after its services joined and were not reset since; a federate
      that waits for the measurement start only after it received the interaction and the
      point Initialized was synchronized since then. */
  lemma OnlineAfterJoining(c: Config, r: Run, steps: seq<Step>, j: nat) returns (i: nat)
    requires Reachable(c, r, steps) && j < |r.a.trace| && r.a.trace[j].WentOnline?
    ensures i < j && r.a.trace[i].ServicesJoined? && forall k :: i < k < j ==> !r.a.trace[k].ServicesReset?
    ensures c.waitForMeasurementInit ==> exists k :: i < k < j && r.a.trace[k].InitReceived?
    ensures c.waitForMeasurementInit ==> exists k :: i < k < j && r.a.trace[k].InitializedReached?
  {
    hide Reachable;
    OrderReached(c, r, steps);
    var trace := r.a.trace;
    DisciplinedAt(c, trace, j);
    hide Disciplined, JoinedSinceReset, SinceJoined;
    i := LastJoined(trace[..j]);
    assert forall k :: 0 <= k < j ==> trace[..j][k] == trace[k];
    if c.waitForMeasurementInit {
      AfterLastJoined(trace[..j], i, InitReceived);
      AfterLastJoined(trace[..j], i, InitializedReached);
    }
  }

  lemma NothingListed(c: Config, r: Amb, e: Answers)
    requires r.state == ScanForFederationPrefix && e.listing == [Federations([])]
    ensures var s := Scan(c, r, e); s.Go? && s.a.trace == r.trace && s.a.state == CreateFederation
  {
    hide NextIndex, Name, Latest, Reversed;
    assert EvokeUntil(c, r.(listed := false), Listed, e.listing) == Deliver(c, r.(listed := false), Federations([]));
  }

  lemma InitializedAnnounced(c: Config, j: Amb, e: Answers)
    requires j.state == JoinedFederation && j.created == CreatedFederation && e.announcing == [Announce(INITIALIZED)]
    requires e.achieved
    ensures var n := Announced(c, j, e); n.Go? && n.a.state == InitFederate && n.a.trace == j.trace
  {
    var x := j.(announcedInitialized := false, announcedSynchronized := false, announcedStopped := false);
    assert EvokeUntil(c, x, AnyAnnounced, e.announcing) == Deliver(c, x, Announce(INITIALIZED));
  }

  /** What the RTI answers to a federate that finds no federation, creates one and goes on. */
  function FirstAnswers(): Answers {
    Answers(true, true, [Federations([])], CreatedFederation, true, [Announce(INITIALIZED)], [], [], true, [])
  }

  lemma ConnectsFirst(c: Config, a: Amb)
    requires !c.waitForMeasurementInit && a.state.Offline?
    ensures var p := Connect(c, a, FirstAnswers());
      p.Go? && p.a.state.Online? && p.a.trace == a.trace + [ServicesJoined] + [WentOnline]
  {
    var e := FirstAnswers();
    var r := Reconnect(LeaveLost(a), e);
    assert r == a.(state := ScanForFederationPrefix);
    hide Reconnect, LeaveLost, Scan, Announced, EvokeUntil;
    NothingListed(c, r, e);
    var j := CreateAndJoin(Scan(c, r, e).a, e);
    assert j.state == JoinedFederation && j.created == CreatedFederation && j.trace == a.trace;
    hide CreateAndJoin;
    InitializedAnnounced(c, j, e);
  }

  /** The assumption that DisconnectRTINode is not called alone: a federate that connected is left
      offline by it with services that are not reset, and the next Connect joins them again. */
  lemma DisconnectAloneJoinsTwice(c: Config) returns (r: Run, steps: seq<Step>)
    requires !c.waitForMeasurementInit
    ensures Reachable(c, r, steps) && !r.waiting && r.a.state.Online? && Disciplined(c, r.a.trace)
    ensures !Disciplined(c, Connect(c, r.a.(state := Offline), FirstAnswers()).a.trace)
  {
    var step := Connecting(FirstAnswers());
    steps := [step];
    r := Next(c, Start(), step);
    assert steps[..0] == [] && Reachable(c, Start(), []);
    hide Connect;
    OrderReached(c, r, steps);
    ConnectsFirst(c, Start().a);
    ConnectsFirst(c, r.a.(state := Offline));
    hide Disciplined, JoinedSinceReset;
    var trace := r.a.trace;
    TraceSnoc(c, [], ServicesJoined);
    TraceSnoc(c, [] + [ServicesJoined], WentOnline);
    TraceSnoc(c, trace, ServicesJoined);
    TraceSnoc(c, trace + [ServicesJoined], WentOnline);
  }

  // ----- When waiting for the measurement start ends -----

  /** Whether a callback takes a waiting federate out of its state other than by the interaction. */
  predicate Distracts(c: Config, cb: Callback) {
    || (cb.MeasurementStop? && c.rejoinOnMeasurementStop) || cb.LostConnection?
    || (cb.Synchronized? && cb.point == INITIALIZED)
  }

  lemma {:induction false} NeverTaken(c: Config, a: Amb, cbs: seq<Callback>)
    requires !a.state.WaitForMeasurementInit? && !a.state.ReceivedMeasurementInit?
    ensures !Reached(EvokeUntil(c, a, InitTaken, cbs), InitTaken)
    decreases |cbs|
  {
    if cbs != [] { NeverTaken(c, Deliver(c, a, cbs[0]), cbs[1..]); }
  }

  /** A federate waiting for the measurement start goes on exactly when the interaction arrives before
      a measurement stop, a lost connection or the synchronized start; otherwise Connect waits
      for good. */
  lemma {:induction false} InitIsTaken(c: Config, a: Amb, cbs: seq<Callback>)
    requires c.waitForMeasurementInit && a.state.WaitForMeasurementInit?
    ensures Reached(EvokeUntil(c, a, InitTaken, cbs), InitTaken) <==>
      exists k :: 0 <= k < |cbs| && cbs[k].MeasurementInit? && forall j :: 0 <= j < k ==> !Distracts(c, cbs[j])
    decreases |cbs|
  {
    if cbs != [] {
      var b, rest := Deliver(c, a, cbs[0]), cbs[1..];
      if cbs[0].MeasurementInit? {
        assert Reached(b, InitTaken);
      } else if Distracts(c, cbs[0]) {
        NeverTaken(c, b, rest);
      } else {
        InitIsTaken(c, b, rest);
        if k :| 0 <= k < |rest| && rest[k].MeasurementInit? && forall j :: 0 <= j < k ==> !Distracts(c, rest[j]) {
          assert cbs[k + 1].MeasurementInit?;
          forall j | 0 <= j < k + 1 ensures !Distracts(c, cbs[j]) {
            if j > 0 { assert cbs[j] == rest[j - 1]; }
          }
        }
        if k :| 0 <= k < |cbs| && cbs[k].MeasurementInit? && forall j :: 0 <= j < k ==> !Distracts(c, cbs[j]) {
          assert rest[k - 1].MeasurementInit?;
          assert forall j :: 0 <= j < k - 1 ==> rest[j] == cbs[j + 1];
        }
      }
    }
  }
}

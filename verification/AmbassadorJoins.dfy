/** What connecting achieves: which federations are joined, under which name, and when the federate
    goes online. Everything is said of the answers of the RTI and the callbacks it delivers. */
module AmbassadorJoins {
  import opened Wrappers
  import opened Federations
  import opened Ambassador

  // ----- Callbacks delivered -----

  /** A callback that announces one of the three points. */
  predicate Announces(cb: Callback) {
    cb.Announce? && cb.point in {INITIALIZED, SYNCHRONIZED, STOPPED}
  }

  /** One of the points was announced. */
  predicate Announcing(a: Amb) {
    a.announcedInitialized || a.announcedSynchronized || a.announcedStopped
  }

  /** What callbacks add to the trace. */
  function SeenIn(cbs: seq<Callback>): seq<Event> {
    if cbs == [] then [] else
      (match cbs[0]
       case MeasurementInit => [InitReceived]
       case Synchronized(point) => if point == INITIALIZED then [InitializedReached] else []
       case _ => []) + SeenIn(cbs[1..])
  }

  lemma DeliverOne(c: Config, a: Amb, cb: Callback)
    ensures var b := Deliver(c, a, cb);
      && b.name == a.name && b.index == a.index && b.created == a.created
      && b.trace == a.trace + SeenIn([cb])
      && (Announcing(b) <==> Announcing(a) || Announces(cb))
  {
    assert SeenIn([cb][1..]) == [];
  }

  lemma {:induction false} Delivered(c: Config, a: Amb, cbs: seq<Callback>)
    ensures var b := DeliverAll(c, a, cbs);
      && b.name == a.name && b.index == a.index && b.created == a.created
      && b.trace == a.trace + SeenIn(cbs)
      && (Announcing(b) <==> Announcing(a) || exists cb :: cb in cbs && Announces(cb))
    decreases |cbs|
  {
    if cbs == [] {
      assert a.trace + [] == a.trace;
    } else {
      DeliverOne(c, a, cbs[0]);
      SeenFront(cbs[0], cbs[1..]);
      assert cbs == [cbs[0]] + cbs[1..];
      hide Deliver, SeenIn, Announces, Announcing;
      Delivered(c, Deliver(c, a, cbs[0]), cbs[1..]);
      assert a.trace + SeenIn([cbs[0]]) + SeenIn(cbs[1..]) == a.trace + (SeenIn([cbs[0]]) + SeenIn(cbs[1..]));
      assert forall cb :: cb in cbs <==> cb == cbs[0] || cb in cbs[1..];
    }
  }

  lemma SeenFront(cb: Callback, cbs: seq<Callback>)
    ensures SeenIn([cb] + cbs) == SeenIn([cb]) + SeenIn(cbs)
  {
    assert ([cb] + cbs)[1..] == cbs && [cb][1..] == [];
    assert SeenIn([]) == [];
  }

  // ----- Joining a federation that exists -----

  /** A federation that exists is gone on with, under its name, if and only if one of its points was
      announced before or is announced now; otherwise it is dead, and the next index is tried. */
  lemma GoesOnIfAnnounced(c: Config, a: Amb, e: Answers)
    requires a.state.JoinedFederation? && a.created.FederationAlreadyExists?
    ensures var p := Announced(c, a, e);
      && p.Go?
      && (p.a.state.InitFederate? <==> Announcing(a) || exists cb :: cb in e.announcing && Announces(cb))
      && (p.a.state.InitFederate? ==> p.a.index == a.index && p.a.name == a.name)
      && (!p.a.state.InitFederate? ==>
            p.a.state.CreateFederation? && p.a.index == Bumped(a.index) && p.a.name == DeadName(c.prefix, p.a.index))
      && p.a.trace == a.trace + SeenIn(e.announcing)
  {
    Delivered(c, a, e.announcing);
    hide DeliverAll, SeenIn, DeadName, Announces;
  }

  /** The interaction that starts the measurement arrives while it is waited for. */
  ghost predicate InitComes(c: Config, cbs: seq<Callback>) {
    exists k :: 0 <= k < |cbs| && cbs[k].MeasurementInit? && forall j :: 0 <= j < k ==> !Distracts(c, cbs[j])
  }

  lemma {:induction false} StartIsReached(c: Config, a: Amb, cbs: seq<Callback>)
    requires c.waitForMeasurementInit && !a.state.FederationSynchronized?
    ensures Reached(EvokeUntil(c, a, StartSynchronized, cbs), StartSynchronized) <==> Synchronized(INITIALIZED) in cbs
    decreases |cbs|
  {
    if cbs != [] {
      assert cbs == [cbs[0]] + cbs[1..];
      var b := Deliver(c, a, cbs[0]);
      if cbs[0] == Synchronized(INITIALIZED) {
        assert Reached(b, StartSynchronized);
      } else {
        StartIsReached(c, b, cbs[1..]);
      }
    }
  }

  /** A federate that waits goes online if and only if the interaction arrives, the point is reported
      as achieved, and it is then synchronized. */
  lemma WaitingGoesOnline(c: Config, a: Amb, e: Answers)
    requires c.waitForMeasurementInit && a.state.WaitForMeasurementInit?
    ensures var p := AwaitStart(c, a, e);
      p.Go? && p.a.state.Online? <==>
        InitComes(c, e.waiting) && e.achieved && Synchronized(INITIALIZED) in e.synchronizing
    ensures !InitComes(c, e.waiting) ==> AwaitStart(c, a, e).Wait?
  {
    InitIsTaken(c, a, e.waiting);
    var b := EvokeUntil(c, a, InitTaken, e.waiting);
    if Reached(b, InitTaken) { StartIsReached(c, b, e.synchronizing); }
    hide EvokeUntil;
  }

  lemma Initialized(c: Config, a: Amb, e: Answers)
    requires a.state.InitFederate?
    ensures var b := Init(c, a, e);
      && b.name == a.name && b.index == a.index
      && b.state == (if c.waitForMeasurementInit then WaitForMeasurementInit else Online)
      && b.trace == a.trace + [ServicesJoined] + SeenIn(e.joining)
           + if c.waitForMeasurementInit then [] else [WentOnline]
  {
    Delivered(c, a.(trace := a.trace + [ServicesJoined]), e.joining);
    hide DeliverAll, SeenIn;
  }

  /** Connecting to a federation that exists and announces a point: its services join, under the name
      and index tried; the federate then goes online, or when it waits for the measurement start does
      so if and only if this comes. */
  lemma JoinsExisting(c: Config, a: Amb, e: Answers)
    requires a.state.CreateFederation? && e.creation.FederationAlreadyExists? && e.joined
    requires Announcing(a) || exists cb :: cb in e.announcing && Announces(cb)
    ensures var p := Connect(c, a, e);
      var joined := a.trace + SeenIn(e.announcing) + [ServicesJoined] + SeenIn(e.joining);
      if c.waitForMeasurementInit then
        && (p.Go? && p.a.state.Online? <==>
              InitComes(c, e.waiting) && e.achieved && Synchronized(INITIALIZED) in e.synchronizing)
        && (e.waiting == [] ==>
              p.Wait? && p.a.state.WaitForMeasurementInit? && p.a.trace == joined
              && p.a.name == a.name && p.a.index == a.index)
      else
        p.Go? && p.a.state.Online? && p.a.trace == joined + [WentOnline] && p.a.name == a.name && p.a.index == a.index
  {
    var j := CreateAndJoin(a, e);
    assert j == a.(created := e.creation, state := JoinedFederation);
    GoesOnIfAnnounced(c, j, e);
    var n := Announced(c, j, e).a;
    Initialized(c, n, e);
    hide Announced, CreateAndJoin, SeenIn, InitComes, Announces;
    assert Scan(c, Reconnect(LeaveLost(a), e), e) == Go(a);
    var i := Init(c, n, e);
    hide Scan, Reconnect, LeaveLost, Init;
    if c.waitForMeasurementInit {
      WaitingGoesOnline(c, i, e);
      assert e.waiting == [] ==> AwaitStart(c, i, e) == Wait(i);
    } else {
      assert AwaitStart(c, i, e) == Go(i);
    }
    hide AwaitStart;
  }

  // ----- Scanning -----

  /** The federation looked for is the last one listed whose name starts with the prefix. */
  lemma {:induction false} LatestIsLast(prefix: string, list: seq<string>, i: nat)
    requires i < |list| && prefix <= list[i] && forall j :: i < j < |list| ==> !(prefix <= list[j])
    ensures Latest(prefix, list) == Some(list[i])
    decreases |list|
  {
    if i < |list| - 1 {
      LatestIsLast(prefix, list[..|list| - 1], i);
    }
  }

  lemma Reconnects(a: Amb, e: Answers)
    requires a.state.Offline? && e.ambassadorCreated && e.connected
    ensures Reconnect(LeaveLost(a), e) == a.(state := ScanForFederationPrefix)
  {
  }

  lemma ScansListed(c: Config, a: Amb, e: Answers, names: seq<string>, i: nat) returns (b: Amb)
    requires a.state.Offline? && a.name == "" && e.ambassadorCreated && e.connected
    requires e.listing == [Federations(names)]
    requires i < |names| && c.prefix <= names[i] && forall j :: i < j < |names| ==> !(c.prefix <= names[j])
    requires Canonical(c.prefix, names[i]) && names[i] != ""
    ensures Scan(c, Reconnect(LeaveLost(a), e), e) == Go(b)
    ensures b.state.CreateFederation? && b.name == names[i] && b.trace == a.trace
  {
    hide NextIndex, Name, Latest, Canonical, Reconnect, LeaveLost, Reversed;
    LatestIsLast(c.prefix, names, i);
    LatestIsChosen(c.prefix, a.index, "", names[i]);
    Reconnects(a, e);
    var r := Reconnect(LeaveLost(a), e);
    assert EvokeUntil(c, r.(listed := false), Listed, e.listing) == Deliver(c, r.(listed := false), Federations(names));
    b := Scan(c, r, e).a;
  }

  /** A federate that is offline and finds federations of its prefix listed joins the last of these,
      by its exact name, and goes online. */
  lemma JoinsListed(c: Config, a: Amb, e: Answers, names: seq<string>, i: nat)
    requires a.state.Offline? && a.name == "" && e.ambassadorCreated && e.connected && !c.waitForMeasurementInit
    requires e.listing == [Federations(names)] && e.creation.FederationAlreadyExists? && e.joined
    requires exists cb :: cb in e.announcing && Announces(cb)
    requires i < |names| && c.prefix <= names[i] && forall j :: i < j < |names| ==> !(c.prefix <= names[j])
    requires Canonical(c.prefix, names[i]) && names[i] != ""
    ensures var p := Connect(c, a, e);
      && p.Go? && p.a.state.Online? && p.a.name == names[i]
      && p.a.trace == a.trace + SeenIn(e.announcing) + [ServicesJoined] + SeenIn(e.joining) + [WentOnline]
  {
    var b := ScansListed(c, a, e, names, i);
    hide Scan, Latest, Canonical, Announces, SeenIn, Reconnect, LeaveLost, Connect;
    JoinsExisting(c, b, e);
    ConnectFrom(c, a, b, e);
  }

  /** From the state after scanning, connecting goes on as from the beginning. */
  lemma ConnectFrom(c: Config, a: Amb, b: Amb, e: Answers)
    requires Scan(c, Reconnect(LeaveLost(a), e), e) == Go(b) && b.state.CreateFederation?
    ensures Connect(c, a, e) == Connect(c, b, e)
  {
    assert Scan(c, Reconnect(LeaveLost(b), e), e) == Go(b);
    hide CreateAndJoin, Announced, Init, AwaitStart;
  }

  // ----- Stops and lost connections -----

  /** Callbacks after which a federate that was told to stop is in another state. */
  predicate Overrides(c: Config, cb: Callback) {
    cb.LostConnection? || (c.waitForMeasurementInit && cb == Synchronized(INITIALIZED))
  }

  lemma {:induction false} StaysStopped(c: Config, a: Amb, cbs: seq<Callback>)
    requires a.state.ReceivedMeasurementStop? && forall cb :: cb in cbs ==> !Overrides(c, cb)
    ensures DeliverAll(c, a, cbs).state.ReceivedMeasurementStop?
    decreases |cbs|
  {
    if cbs != [] {
      assert cbs[0] in cbs && forall cb :: cb in cbs[1..] ==> cb in cbs;
      StaysStopped(c, Deliver(c, a, cbs[0]), cbs[1..]);
    }
  }

  lemma {:induction false} DeliverConcat(c: Config, a: Amb, x: seq<Callback>, y: seq<Callback>)
    ensures DeliverAll(c, a, x + y) == DeliverAll(c, DeliverAll(c, a, x), y)
    decreases |x|
  {
    if x == [] {
      assert x + y == y;
    } else {
      assert (x + y)[0] == x[0] && (x + y)[1..] == x[1..] + y;
      DeliverConcat(c, Deliver(c, a, x[0]), x[1..], y);
    }
  }

  /** A measurement stop leads to the state from which a federate configured to rejoin chooses another
      federation, and is ignored by one that is not. */
  lemma StopIsNoted(c: Config, a: Amb, before: seq<Callback>, after: seq<Callback>)
    requires forall cb :: cb in after ==> !Overrides(c, cb)
    ensures c.rejoinOnMeasurementStop ==>
      DeliverAll(c, a, before + ([MeasurementStop] + after)).state.ReceivedMeasurementStop?
    ensures !c.rejoinOnMeasurementStop ==>
      DeliverAll(c, a, before + ([MeasurementStop] + after)) == DeliverAll(c, a, before + after)
  {
    DeliverConcat(c, a, before, [MeasurementStop] + after);
    DeliverConcat(c, a, before, after);
    var b := DeliverAll(c, a, before);
    assert ([MeasurementStop] + after)[1..] == after;
    assert DeliverAll(c, b, [MeasurementStop] + after) == DeliverAll(c, Deliver(c, b, MeasurementStop), after);
    if c.rejoinOnMeasurementStop { StaysStopped(c, Deliver(c, b, MeasurementStop), after); }
  }

  /** A federate that is offline and remembers no federation, and that finds none, creates the one named
      by the prefix alone. */
  lemma StartsOver(c: Config, a: Amb)
    requires !c.waitForMeasurementInit && a.state.Offline? && a.name == "" && a.index == -1
    ensures var p := Connect(c, a, FirstAnswers());
      && p.Go? && p.a.state.Online? && p.a.name == c.prefix && p.a.index == -1
      && p.a.trace == a.trace + [ServicesJoined] + [WentOnline]
  {
    ConnectsFirst(c, a);
    var e := FirstAnswers();
    Reconnects(a, e);
    hide Reconnect, LeaveLost;
    var r := Reconnect(LeaveLost(a), e);
    NothingListed(c, r, e);
    var s := Scan(c, r, e).a;
    assert s.name == c.prefix && s.index == -1 by {
      assert EvokeUntil(c, r.(listed := false), Listed, e.listing) == Deliver(c, r.(listed := false), Federations([]));
    }
    hide Scan;
    var j := CreateAndJoin(s, e);
    var x := j.(announcedInitialized := false, announcedSynchronized := false, announcedStopped := false);
    assert EvokeUntil(c, x, AnyAnnounced, e.announcing) == Deliver(c, x, Announce(INITIALIZED));
  }

  /** After a lost connection the next Connect resets everything, forgets the federation and starts
      over. */
  lemma LostStartsOver(c: Config, a: Amb)
    requires a.state.ConnectionLost? && !c.waitForMeasurementInit
    ensures var p := Connect(c, a, FirstAnswers());
      && p.Go? && p.a.state.Online? && p.a.name == c.prefix && p.a.index == -1
      && p.a.trace == a.trace + [ServicesReset] + [ServicesJoined] + [WentOnline]
  {
    var l := LeaveLost(a);
    assert l.state.Offline? && l.name == "" && l.index == -1 && l.trace == a.trace + [ServicesReset];
    assert LeaveLost(l) == l;
    StartsOver(c, l);
    hide LeaveLost, Scan, Reconnect;
  }

  /** So does the one after a Disconnect. */
  lemma DisconnectStartsOver(c: Config, a: Amb)
    requires !c.waitForMeasurementInit
    ensures var p := Connect(c, Disconnect(a), FirstAnswers());
      && p.Go? && p.a.state.Online? && p.a.name == c.prefix && p.a.index == -1
      && p.a.trace == a.trace + [ServicesReset] + [ServicesJoined] + [WentOnline]
  {
    StartsOver(c, Disconnect(a));
  }

  /** Without a federation created or joined, the services do not join. */
  lemma NotJoined(c: Config, a: Amb, e: Answers)
    requires a.state.CreateFederation? && (e.creation.Error? || !e.joined)
    ensures var p := Connect(c, a, e);
      && p.Go? && p.a.trace == a.trace && p.a.name == a.name && p.a.index == a.index
      && p.a.state == if e.creation.Error? then CreateFederation else JoinFederation
  {
  }
}

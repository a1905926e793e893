/** The ambassador as it changes its fields step by step: Connect with its waiting loops, the
    callbacks, and the resets. Each method makes the transition that Ambassador states. */
module RemoteAmbassadors {
  import opened Wrappers
  import opened Federations
  import opened Ambassador

  datatype Outcome = Returned | ReturnedEarly | StillWaiting

  class RemoteAmbassador {
    const mConfig: Config
    var mState: AmbassadorState
    var mFederationIndex: int
    var mCurrentFederationName: string
    var mIsAnnouncedInitializedSyncPoint: bool
    var mIsAnnouncedSynchronizedSyncPoint: bool
    var mIsAnnouncedStoppedSyncPoint: bool
    var mIsListOfFederationExecutionsAvailable: bool
    var mFederationExecutionInformationVector: seq<string>
    var mCreateFederationResult: CreateFederationResult
    ghost var mTrace: seq<Event>

    ghost function View(): Amb
      reads this
    {
      Amb(mState, mFederationIndex, mCurrentFederationName,
        mIsAnnouncedInitializedSyncPoint, mIsAnnouncedSynchronizedSyncPoint, mIsAnnouncedStoppedSyncPoint,
        mIsListOfFederationExecutionsAvailable, mFederationExecutionInformationVector,
        mCreateFederationResult, mTrace)
    }

    constructor (config: Config)
      ensures mConfig == config && View() == Start().a
    {
      mConfig := config;
      mState, mFederationIndex, mCurrentFederationName := Offline, -1, "";
      mIsAnnouncedInitializedSyncPoint, mIsAnnouncedSynchronizedSyncPoint, mIsAnnouncedStoppedSyncPoint := false,
        false, false;
      mIsListOfFederationExecutionsAvailable, mFederationExecutionInformationVector,
        mCreateFederationResult := false, [], Error;
      mTrace := [];
    }

    // ----- Callbacks -----

    method OnAnnounceSynchronizationPoint(point: string)
      modifies this
      ensures View() == Deliver(mConfig, old(View()), Announce(point))
    {
      if point == INITIALIZED {
        mIsAnnouncedInitializedSyncPoint := true;
      } else if point == SYNCHRONIZED {
        mIsAnnouncedSynchronizedSyncPoint := true;
      } else if point == STOPPED {
        mIsAnnouncedStoppedSyncPoint := true;
      }
    }

    method OnFederationSynchronized(point: string)
      modifies this
      ensures View() == Deliver(mConfig, old(View()), Synchronized(point))
    {
      if point == INITIALIZED {
        mTrace := mTrace + [InitializedReached];
        if mConfig.waitForMeasurementInit {
          mState := FederationSynchronized;
        }
      }
    }

    method OnReceiveIAMeasurementInit()
      modifies this
      ensures View() == Deliver(mConfig, old(View()), MeasurementInit)
    {
      mTrace := mTrace + [InitReceived];
      if mConfig.waitForMeasurementInit {
        if mState == WaitForMeasurementInit {
          mState := ReceivedMeasurementInit;
        }
      }
    }

    method OnReceiveIAMeasurementStop()
      modifies this
      ensures View() == Deliver(mConfig, old(View()), MeasurementStop)
    {
      if mConfig.rejoinOnMeasurementStop {
        mState := ReceivedMeasurementStop;
      }
    }

    method OnConnectionLost()
      modifies this
      ensures View() == Deliver(mConfig, old(View()), LostConnection)
    {
      mState := ConnectionLost;
    }

    method OnReportFederationExecutions(names: seq<string>)
      modifies this
      ensures View() == Deliver(mConfig, old(View()), Federations(names))
    {
      mIsListOfFederationExecutionsAvailable := true;
      mFederationExecutionInformationVector := names;
    }

    method EvokeCallback(cb: Callback)
      modifies this
      ensures View() == Deliver(mConfig, old(View()), cb)
    {
      hide Deliver;
      match cb
      case Announce(point) => OnAnnounceSynchronizationPoint(point);
      case Synchronized(point) => OnFederationSynchronized(point);
      case MeasurementInit => OnReceiveIAMeasurementInit();
      case MeasurementStop => OnReceiveIAMeasurementStop();
      case LostConnection => OnConnectionLost();
      case Federations(names) => OnReportFederationExecutions(names);
      case Other => OtherChangesNothing();
    }

    lemma OtherChangesNothing()
      ensures Deliver(mConfig, View(), Other) == View()
    {
    }

    method EvokeAll(cbs: seq<Callback>)
      modifies this
      ensures View() == DeliverAll(mConfig, old(View()), cbs)
    {
      hide Deliver, View;
      for i := 0 to |cbs|
        invariant DeliverAll(mConfig, old(View()), cbs) == DeliverAll(mConfig, View(), cbs[i..])
      {
        EvokeCallback(cbs[i]);
      }
    }

    /** A waiting loop; it ends without reaching its goal only where the callbacks given end. */
    method Evoke(goal: Goal, cbs: seq<Callback>) returns (reached: bool)
      modifies this
      ensures View() == EvokeUntil(mConfig, old(View()), goal, cbs) && reached == Reached(View(), goal)
    {
      hide Deliver, View;
      var i := 0;
      reached := IsReached(goal);
      while !reached && i < |cbs|
        invariant 0 <= i <= |cbs| && reached == Reached(View(), goal)
        invariant EvokeUntil(mConfig, old(View()), goal, cbs) == EvokeUntil(mConfig, View(), goal, cbs[i..])
        decreases |cbs| - i
      {
        EvokeCallback(cbs[i]);
        i := i + 1;
        reached := IsReached(goal);
      }
    }

    method IsReached(goal: Goal) returns (reached: bool)
      ensures reached == Reached(View(), goal)
    {
      match goal
      case Listed => reached := mIsListOfFederationExecutionsAvailable;
      case AnyAnnounced => reached := mIsAnnouncedInitializedSyncPoint || mIsAnnouncedSynchronizedSyncPoint
        || mIsAnnouncedStoppedSyncPoint;
      case InitTaken => reached := mState == ReceivedMeasurementInit;
      case StartSynchronized => reached := mState == FederationSynchronized;
    }

    // ----- Resets -----

    method ResetServices()
      modifies `mTrace
      ensures View() == Ambassador.ResetServices(old(View()))
    {
      mTrace := mTrace + [ServicesReset];
    }

    method ResetRemoteAmbassador()
      modifies this
      ensures View() == Ambassador.ResetRemoteAmbassador(old(View()))
    {
      mIsListOfFederationExecutionsAvailable := false;
      mIsAnnouncedInitializedSyncPoint, mIsAnnouncedSynchronizedSyncPoint, mIsAnnouncedStoppedSyncPoint := false,
        false, false;
      mCreateFederationResult := Error;
    }

    method ResetFederationMemory()
      modifies `mFederationIndex, `mCurrentFederationName
      ensures View() == Ambassador.ResetFederationMemory(old(View()))
    {
      mFederationIndex := -1;
      mCurrentFederationName := "";
    }

    /** Everything is reset, and the federation is forgotten. */
    method HandleConnectionLost()
      modifies this
      ensures View() == Ambassador.HandleConnectionLost(old(View()))
    {
      ResetServices();
      ResetRemoteAmbassador();
      ResetFederationMemory();
    }

    /** Everything is reset, but the federation left is remembered. */
    method ResetOnMeasurementStop()
      modifies this
      ensures View() == Ambassador.ResetOnMeasurementStop(old(View()))
    {
      ResetServices();
      ResetRemoteAmbassador();
    }

    method Disconnect()
      modifies this
      ensures View() == Ambassador.Disconnect(old(View()))
    {
      ResetServices();
      ResetRemoteAmbassador();
      ResetFederationMemory();
      mState := Offline;
    }

    // ----- Federations -----

    /** The list is reversed in place, then searched from the front. */
    method GetLatestFederation() returns (found: Option<string>)
      modifies `mFederationExecutionInformationVector
      ensures mFederationExecutionInformationVector == Reversed(old(mFederationExecutionInformationVector))
      ensures found == Latest(mConfig.prefix, old(mFederationExecutionInformationVector))
    {
      var list := mFederationExecutionInformationVector;
      var reversed := [];
      for i := 0 to |list|
        invariant |reversed| == i && forall j :: 0 <= j < i ==> reversed[j] == list[|list| - 1 - j]
      {
        reversed := reversed + [list[|list| - 1 - i]];
      }
      mFederationExecutionInformationVector := reversed;
      var k := 0;
      assert list[..|list|] == list;
      while k < |reversed| && !(mConfig.prefix <= reversed[k])
        invariant 0 <= k <= |reversed|
        invariant Latest(mConfig.prefix, list) == Latest(mConfig.prefix, list[..|list| - k])
      {
        assert list[..|list| - k][..|list| - k - 1] == list[..|list| - k - 1];
        k := k + 1;
      }
      found := if k < |reversed| then Some(reversed[k]) else None;
    }

    method UpdateFederationNameAndIndex(latest: Option<string>)
      requires latest.Some? ==> mConfig.prefix <= latest.value
      modifies `mFederationIndex, `mCurrentFederationName
      ensures mFederationIndex == NextIndex(mConfig.prefix, old(mFederationIndex), old(mCurrentFederationName), latest)
      ensures mCurrentFederationName == Name(mConfig.prefix, mFederationIndex)
    {
      hide ToString, Parse;
      if latest.None? {
        if mCurrentFederationName != "" {
          mFederationIndex := if mFederationIndex == -1 then 1 else mFederationIndex + 1;
        }
      } else if latest.value == mCurrentFederationName {
        mFederationIndex := if mFederationIndex == -1 then 1 else mFederationIndex + 1;
      } else {
        var measurementIndex := GetMeasurementIndexOfFederation(latest.value);
        var n := if measurementIndex == "" then None else Stoi(measurementIndex);
        mFederationIndex := if n.Some? then n.value else -1;
      }
      mCurrentFederationName := mConfig.prefix;
      if mFederationIndex != -1 {
        mCurrentFederationName := mCurrentFederationName + ("-" + ToString(mFederationIndex));
        assert mConfig.prefix + ("-" + ToString(mFederationIndex)) == mConfig.prefix + "-" + ToString(mFederationIndex);
      }
    }

    method GetMeasurementIndexOfFederation(federationName: string) returns (suffix: string)
      requires mConfig.prefix <= federationName
      ensures IndexOf(mConfig.prefix, federationName) == if suffix == "" || Stoi(suffix).None? then -1
        else Stoi(suffix).value
    {
      hide ToString;
      if mConfig.prefix == federationName {
        suffix := "";
      } else {
        suffix := federationName[|mConfig.prefix| + 1..];
        assert Parse("").None?;
      }
    }

    method HandleDeadFederation()
      modifies `mFederationIndex, `mCurrentFederationName
      ensures mFederationIndex == Bumped(old(mFederationIndex))
        && mCurrentFederationName == DeadName(mConfig.prefix, mFederationIndex)
    {
      mFederationIndex := if mFederationIndex == -1 then 1 else mFederationIndex + 1;
      mCurrentFederationName := mConfig.prefix + "-" + ToString(mFederationIndex);
    }

    // ----- Connect -----

    method LeaveLost()
      modifies this
      ensures View() == Ambassador.LeaveLost(old(View()))
    {
      if mState == ConnectionLost {
        HandleConnectionLost();
        mState := Offline;
      }
    }

    method Reconnect(e: Answers)
      modifies this
      ensures View() == Ambassador.Reconnect(old(View()), e)
    {
      if mState == Offline && e.ambassadorCreated {
        mState := AmbassadorAvailable;
      }
      if mState == AmbassadorAvailable && e.connected {
        mState := ScanForFederationPrefix;
      }
      if mState == ReceivedMeasurementStop {
        ResetOnMeasurementStop();
        mState := ScanForFederationPrefix;
      }
    }

    method Scan(e: Answers) returns (done: bool)
      modifies this
      ensures Ambassador.Scan(mConfig, old(View()), e) == if done then Go(View()) else Wait(View())
    {
      hide EvokeUntil, NextIndex, Name, Latest, Reversed;
      done := true;
      if mState == ScanForFederationPrefix {
        mIsListOfFederationExecutionsAvailable := false;
        done := Evoke(Listed, e.listing);
        if done {
          var latest := GetLatestFederation();
          UpdateFederationNameAndIndex(latest);
          mState := CreateFederation;
        }
      }
    }

    method CreateAndJoin(e: Answers)
      modifies this
      ensures View() == Ambassador.CreateAndJoin(old(View()), e)
    {
      if mState == CreateFederation {
        mCreateFederationResult := e.creation;
        if mCreateFederationResult != Error {
          mState := JoinFederation;
        }
      }
      if mState == JoinFederation && e.joined {
        mState := JoinedFederation;
      }
    }

    method Announced(e: Answers) returns (done: bool)
      modifies this
      ensures Ambassador.Announced(mConfig, old(View()), e) == if done then Go(View()) else Wait(View())
    {
      done := true;
      if mState == JoinedFederation {
        if mCreateFederationResult == CreatedFederation {
          done := RegisterSyncPoints(e);
          if done {
            mState := InitFederate;
          }
        } else {
          RetrieveSyncPoints(e);
        }
      }
    }

    method RegisterSyncPoints(e: Answers) returns (done: bool)
      modifies this
      ensures View() == EvokeUntil(mConfig,
        old(View()).(announcedInitialized := false, announcedSynchronized := false, announcedStopped := false),
          AnyAnnounced, e.announcing)
      ensures done == Reached(View(), AnyAnnounced)
    {
      hide EvokeUntil;
      mIsAnnouncedInitializedSyncPoint, mIsAnnouncedSynchronizedSyncPoint, mIsAnnouncedStoppedSyncPoint := false,
        false, false;
      done := Evoke(AnyAnnounced, e.announcing);
    }

    /** Joining a federation that exists: without any announced point it is dead. */
    method RetrieveSyncPoints(e: Answers)
      requires mState == JoinedFederation && mCreateFederationResult != CreatedFederation
      modifies this
      ensures Ambassador.Announced(mConfig, old(View()), e) == Go(View())
    {
      hide DeliverAll, DeadName;
      EvokeAll(e.announcing);
      if !mIsAnnouncedInitializedSyncPoint {
        if mIsAnnouncedSynchronizedSyncPoint || mIsAnnouncedStoppedSyncPoint {
          mState := InitFederate;
        } else {
          HandleDeadFederation();
          mState := CreateFederation;
        }
      } else {
        mState := InitFederate;
      }
    }

    method Init(e: Answers)
      modifies this
      ensures View() == Ambassador.Init(mConfig, old(View()), e)
    {
      hide DeliverAll;
      if mState == InitFederate {
        mTrace := mTrace + [ServicesJoined];
        EvokeAll(e.joining);
        if mConfig.waitForMeasurementInit {
          mState := WaitForMeasurementInit;
        } else {
          mState := Online;
          mTrace := mTrace + [WentOnline];
        }
      }
    }

    method AwaitStart(e: Answers) returns (outcome: Outcome)
      modifies this
      ensures Ambassador.AwaitStart(mConfig, old(View()), e) ==
        match outcome case Returned => Go(View()) case ReturnedEarly => Stop(View()) case StillWaiting => Wait(View())
    {
      hide EvokeUntil;
      if !(mConfig.waitForMeasurementInit && mState == WaitForMeasurementInit) {
        return Returned;
      }
      var taken := Evoke(InitTaken, e.waiting);
      if !taken {
        return StillWaiting;
      }
      if !e.achieved {
        return ReturnedEarly;
      }
      var started := Evoke(StartSynchronized, e.synchronizing);
      if !started {
        return StillWaiting;
      }
      mState := Online;
      mTrace := mTrace + [WentOnline];
      return Returned;
    }

    method Connect(e: Answers) returns (outcome: Outcome)
      modifies this
      ensures Ambassador.Connect(mConfig, old(View()), e) ==
        match outcome case Returned => Go(View()) case ReturnedEarly => Stop(View()) case StillWaiting => Wait(View())
    {
      hide View, Ambassador.LeaveLost, Ambassador.Reconnect, Ambassador.Scan, Ambassador.CreateAndJoin,
        Ambassador.Announced, Ambassador.Init, Ambassador.AwaitStart;
      LeaveLost();
      Reconnect(e);
      var scanned := Scan(e);
      if !scanned {
        return StillWaiting;
      }
      CreateAndJoin(e);
      var announced := Announced(e);
      if !announced {
        return StillWaiting;
      }
      Init(e);
      outcome := AwaitStart(e);
    }
  }
}

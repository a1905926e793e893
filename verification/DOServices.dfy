/** The distributed-object service as it updates its collections in place: each method makes the
    transition that DOModel states, for the sources shared between the list and the handle map. */
module DOServices {
  import opened Wrappers
  import opened DOModel
  import opened DORuns
  import opened DOInvariants

  /** A local source, shared by the list of local sources and the map from handles. */
  class DOSource {
    const mName: string
    const mUUID: Uuid
    const mConnectionType: string
    const mLocalHandle: Handle
    var mObjectInstanceHandle: Option<Object>
    var mLastDataVec: Payload

    constructor (name: string, uuid: Uuid, conn: string, handle: Handle)
      ensures mName == name && mUUID == uuid && mConnectionType == conn && mLocalHandle == handle
      ensures mObjectInstanceHandle == None && mLastDataVec == []
    {
      mName, mUUID, mConnectionType, mLocalHandle := name, uuid, conn, handle;
      mObjectInstanceHandle, mLastDataVec := None, [];
    }

    ghost function View(): Source
      reads this
    {
      Source(mName, mUUID, mConnectionType, mLocalHandle, mObjectInstanceHandle, mLastDataVec)
    }
  }

  ghost function Views(ss: seq<DOSource>): (r: seq<Source>)
    reads ss
    ensures |r| == |ss|
    ensures forall i :: 0 <= i < |ss| ==> r[i] == ss[i].View()
  {
    seq(|ss|, i requires 0 <= i < |ss| reads ss => ss[i].View())
  }

  /** No object is listed twice, and the map holds listed objects under their handles, each with its
      object instance. */
  ghost predicate Mapped(ss: seq<DOSource>, index: map<Handle, DOSource>)
    reads ss
  {
    && (forall i, j :: 0 <= i < j < |ss| ==> ss[i] != ss[j])
    && (forall h :: h in index ==> index[h] in ss && index[h].mLocalHandle == h && index[h].mObjectInstanceHandle.Some?)
  }

  lemma MappedWithout(ss: seq<DOSource>, index: map<Handle, DOSource>, k: nat)
    requires Mapped(ss, index) && k < |ss|
    ensures Mapped(ss[..k] + ss[k + 1..], index - {ss[k].mLocalHandle})
  {
    var rest := ss[..k] + ss[k + 1..];
    assert ss == ss[..k] + [ss[k]] + ss[k + 1..];
    assert forall s :: s in ss && s != ss[k] ==> s in ss[..k] || s in ss[k + 1..];
    assert forall i :: 0 <= i < |rest| ==> rest[i] == if i < k then ss[i] else ss[i + 1];
  }

  /** The sources can be told apart by handle and name, as in every state a service reaches when no
      source is registered between entering InitFederate and joining. */
  ghost predicate Distinguished(st: State) {
    && DistinctLocals(st.locals) && DistinctRegistrations(st.buffered)
      && RegisteredHandles(st.buffered) !! LocalHandles(st.locals)
    && forall s :: s in st.locals ==> s.uuid < st.nextUuid
  }

  lemma ReachedDistinguished(r: Run, steps: seq<Step>, discoverers: set<string>)
    requires Reachable(r, steps, discoverers)
    ensures Distinguished(r.st)
  {
    hide Reachable, Identified, Conserved, LastHeld;
    InvariantReached(r, steps, discoverers);
  }

  ghost predicate HaveObjects(ss: seq<Source>, usable: set<Handle>) {
    forall h :: h in usable ==> HasObject(ss, h)
  }

  /** After the targets and the sources of the buffers are registered. */
  lemma ReadyToTransmit(was: State, mid: State, now: seq<Source>)
    requires Distinguished(was) && HaveObjects(was.locals, was.usable)
    requires mid == CreateTargets(was, was.bufferedTargets).st.(bufferedTargets := [])
    requires now == was.locals + CreatedSources(was.buffered, mid.nextUuid)
    ensures mid == was.(bufferedTargets := [], localTargets := mid.localTargets, callbacks := mid.callbacks,
      nextUuid := mid.nextUuid)
    ensures DistinctLocals(now) && HaveObjects(now, was.usable)
  {
    hide CreateTargets, DistinctLocals, DistinctRegistrations, RegisteredHandles, LocalHandles, CreatedSources,
      CreatedTargets, WithCallbacks, HasObject;
    CreateTargetsSummary(was, was.bufferedTargets);
    CreatedHandles(was.locals, was.buffered, mid.nextUuid);
    forall h | h in was.usable ensures HasObject(now, h) {
      HasObjectInFront(was.locals, CreatedSources(was.buffered, mid.nextUuid), h);
    }
  }

  /** Registering and transmitting in closed form is processing the buffers. */
  lemma ProcessedBuffers(was: State, mid: State, before: seq<Source>, now: seq<Source>, kept: seq<Transmit>,
      data: seq<RtiCall>)
    requires HaveObjects(before, was.usable)
    requires mid == CreateTargets(was, was.bufferedTargets).st.(bufferedTargets := [])
    requires mid == was.(bufferedTargets := [], localTargets := mid.localTargets, callbacks := mid.callbacks,
      nextUuid := mid.nextUuid)
    requires before == was.locals + CreatedSources(was.buffered, mid.nextUuid)
    requires Transmitted(before, was.usable, was.transmits, now, kept, data)
    ensures DOModel.ProcessBuffers(was).st ==
      mid.(buffered := [], locals := now, nextUuid := mid.nextUuid + |was.buffered|, transmits := kept)
    ensures DOModel.ProcessBuffers(was).calls ==
      CreateTargets(was, was.bufferedTargets).calls + Reservations(mid.nextUuid, |was.buffered|) + data
  {
    hide CreateTargets, CreateSources, TransmitAll, HasObject, UpdatedLast, CreatedSources, Sendable, Unsendable, Ready;
    CreateSourcesSummary(mid, was.buffered);
    CreateSourcesCalls(mid, was.buffered);
    var st := CreateSources(mid, was.buffered).st.(buffered := [], transmits := []);
    assert st.locals == before && st.usable == was.usable;
    TransmitAllSummary(st, was.transmits);
    assert [] + kept == kept;
  }

  class DOService {
    var mState: Phase
    var mPersistentRegisterDOSources: seq<SourceRegistration>
    var mBufferedRegisterDOSources: seq<SourceRegistration>
    var mLocalSources: seq<DOSource>
    var mLocalSourceByLocalHandle: map<Handle, DOSource>
    var mBufferedTransmit: seq<Transmit>
    var mPersistentRegisterDOTargets: seq<TargetRegistration>
    var mBufferedRegisterDOTargets: seq<TargetRegistration>
    var mLocalTargets: seq<Target>
    var mLocalTargetCallbacks: map<(string, string), Handle>
    var mRemoteSources: seq<Remote>
    var mRemoteSourceByObjectInstanceHandle: map<Object, Remote>
    var mRemoteTargets: seq<Remote>
    var mRemoteTargetByObjectInstanceHandle: map<Object, Remote>
    var mNextLocalDOSourceHandle: Handle
    var mNextLocalDOTargetHandle: Handle
    var mNextUuid: Uuid
    var mDODiscoverers: set<string>

    ghost predicate Valid()
      reads `mLocalSources, `mLocalSourceByLocalHandle, mLocalSources
    {
      Mapped(mLocalSources, mLocalSourceByLocalHandle)
    }

    ghost function View(): State
      reads this, mLocalSources
    {
      State(mState, mPersistentRegisterDOSources, mBufferedRegisterDOSources, Views(mLocalSources),
        mLocalSourceByLocalHandle.Keys, mBufferedTransmit,
        mPersistentRegisterDOTargets, mBufferedRegisterDOTargets, mLocalTargets, mLocalTargetCallbacks,
        mRemoteSources, mRemoteSourceByObjectInstanceHandle, mRemoteTargets, mRemoteTargetByObjectInstanceHandle,
        mNextLocalDOSourceHandle, mNextLocalDOTargetHandle, mNextUuid, mDODiscoverers)
    }

    constructor (discoverers: set<string>)
      ensures Valid() && View() == Start(discoverers).st
    {
      mState := Offline;
      mPersistentRegisterDOSources, mBufferedRegisterDOSources, mLocalSources, mLocalSourceByLocalHandle := [], [],
        [], map[];
      mBufferedTransmit := [];
      mPersistentRegisterDOTargets, mBufferedRegisterDOTargets, mLocalTargets, mLocalTargetCallbacks := [], [], [],
        map[];
      mRemoteSources, mRemoteSourceByObjectInstanceHandle := [], map[];
      mRemoteTargets, mRemoteTargetByObjectInstanceHandle := [], map[];
      mNextLocalDOSourceHandle, mNextLocalDOTargetHandle, mNextUuid := 1, 1, 0;
      mDODiscoverers := discoverers;
    }

    lemma MapHasObjects()
      requires Valid() && DistinctLocals(Views(mLocalSources))
      ensures HaveObjects(Views(mLocalSources), mLocalSourceByLocalHandle.Keys)
    {
      forall h | h in mLocalSourceByLocalHandle ensures HasObject(Views(mLocalSources), h) {
        var i :| 0 <= i < |mLocalSources| && mLocalSources[i] == mLocalSourceByLocalHandle[h];
        FindLocalAt(Views(mLocalSources), i);
      }
    }

    // ----- Registration -----

    method RegisterDOMemberSourceCommon(name: string, conn: string) returns (handle: Handle)
      requires Valid()
      modifies `mPersistentRegisterDOSources, `mBufferedRegisterDOSources, `mNextLocalDOSourceHandle
      ensures Valid() && View() == RegisterSource(old(View()), name, conn) && handle == old(mNextLocalDOSourceHandle)
    {
      hide Views;
      mPersistentRegisterDOSources := mPersistentRegisterDOSources
        + [SourceRegistration(name, conn, mNextLocalDOSourceHandle, [])];
      if mState.Online? || mState.InitFederate? {
        mBufferedRegisterDOSources := mBufferedRegisterDOSources
          + [SourceRegistration(name, conn, mNextLocalDOSourceHandle, [])];
      }
      handle := mNextLocalDOSourceHandle;
      mNextLocalDOSourceHandle := mNextLocalDOSourceHandle + 1;
    }

    /** With an explicit connection type the default one is refused. */
    method RegisterDOMemberSource(name: string, conn: string) returns (handle: Handle)
      requires Valid()
      modifies `mPersistentRegisterDOSources, `mBufferedRegisterDOSources, `mNextLocalDOSourceHandle
      ensures Valid()
      ensures if conn == DEFAULT_CONNECTION_TYPE then handle == INVALID_HANDLE && View() == old(View())
        else handle == old(mNextLocalDOSourceHandle) && View() == RegisterSource(old(View()), name, conn)
    {
      if conn == DEFAULT_CONNECTION_TYPE {
        return INVALID_HANDLE;
      }
      handle := RegisterDOMemberSourceCommon(name, conn);
    }

    method RegisterDOMemberTargetCommon(name: string, conn: string) returns (handle: Handle)
      requires Valid()
      modifies `mPersistentRegisterDOTargets, `mBufferedRegisterDOTargets, `mNextLocalDOTargetHandle
      ensures Valid() && View() == RegisterTarget(old(View()), name, conn) && handle == old(mNextLocalDOTargetHandle)
    {
      hide Views;
      mPersistentRegisterDOTargets := mPersistentRegisterDOTargets
        + [TargetRegistration(name, conn, mNextLocalDOTargetHandle)];
      if mState.Online? || mState.InitFederate? {
        mBufferedRegisterDOTargets := mBufferedRegisterDOTargets
          + [TargetRegistration(name, conn, mNextLocalDOTargetHandle)];
      }
      handle := mNextLocalDOTargetHandle;
      mNextLocalDOTargetHandle := mNextLocalDOTargetHandle + 1;
    }

    method ProcessPersistentRegistrations()
      requires Valid()
      modifies `mBufferedRegisterDOSources, `mBufferedRegisterDOTargets
      ensures Valid() && View() == DOModel.ProcessPersistentRegistrations(old(View()))
    {
      mBufferedRegisterDOSources := mBufferedRegisterDOSources + mPersistentRegisterDOSources;
      mBufferedRegisterDOTargets := mBufferedRegisterDOTargets + mPersistentRegisterDOTargets;
    }

    method TransmitDOMember(handle: Handle, data: Payload)
      requires Valid()
      modifies this`mBufferedTransmit
      ensures Valid() && View() == DOModel.TransmitDOMember(old(View()), handle, data)
    {
      mBufferedTransmit := mBufferedTransmit + [Transmit(handle, data)];
    }

    // ----- Processing the buffers -----

    /** The callback is stored before the reservation; then a value update is requested from every
        remote source of that name. */
    method RegisterBufferedDOTarget(r: TargetRegistration) returns (calls: seq<RtiCall>)
      requires Valid()
      modifies `mLocalTargets, `mLocalTargetCallbacks, `mNextUuid
      ensures Valid() && View() == CreateTarget(old(View()), r).st && calls == CreateTarget(old(View()), r).calls
    {
      hide Views;
      mLocalTargets := mLocalTargets + [Target(r.name, mNextUuid, r.conn, r.handle)];
      mLocalTargetCallbacks := mLocalTargetCallbacks[(r.conn, r.name) := r.handle];
      calls := [Reserve(mNextUuid)];
      mNextUuid := mNextUuid + 1;
      var requests := RequestSources(r.name);
      calls := calls + requests;
    }

    method RequestSources(name: string) returns (calls: seq<RtiCall>)
      ensures calls == RequestsFor(mRemoteSources, name)
    {
      calls := [];
      for i := 0 to |mRemoteSources|
        invariant calls == RequestsFor(mRemoteSources[..i], name)
      {
        RequestsForSnoc(mRemoteSources[..i], mRemoteSources[i], name);
        assert mRemoteSources[..i] + [mRemoteSources[i]] == mRemoteSources[..i + 1];
        if mRemoteSources[i].name == name {
          calls := calls + [RequestData(mRemoteSources[i].obj)];
        }
      }
      assert mRemoteSources[..|mRemoteSources|] == mRemoteSources;
    }

    method RegisterBufferedDOSource(r: SourceRegistration) returns (call: RtiCall)
      requires Valid()
      modifies `mLocalSources, `mNextUuid
      ensures Valid() && call == Reserve(old(mNextUuid)) && mNextUuid == old(mNextUuid) + 1
      ensures Views(mLocalSources) == old(Views(mLocalSources)) + [NewSource(r, old(mNextUuid))]
      ensures old(mLocalSources) <= mLocalSources && fresh(mLocalSources[|old(mLocalSources)|..])
    {
      var s := new DOSource(r.name, mNextUuid, r.conn, r.handle);
      ghost var before := mLocalSources;
      mLocalSources := mLocalSources + [s];
      if r.last != [] {
        s.mLastDataVec := r.last;
      }
      call := Reserve(mNextUuid);
      mNextUuid := mNextUuid + 1;
      assert mLocalSources[|before|..] == [s];
    }

    method StoreLastData(source: DOSource, data: Payload, ghost i: nat)
      requires Valid() && i < |mLocalSources| && mLocalSources[i] == source
      modifies source`mLastDataVec
      ensures Valid() && Views(mLocalSources) == old(Views(mLocalSources))[i := old(source.View()).(last := data)]
    {
      source.mLastDataVec := data;
    }

    /** Handed over once the handle map knows the source, after remembering the data there. */
    method BufferedTransmitDOMember(t: Transmit) returns (ok: bool, calls: seq<RtiCall>)
      requires Valid() && DistinctLocals(Views(mLocalSources))
      modifies mLocalSources
      ensures Valid() && ok == (t.handle in mLocalSourceByLocalHandle)
      ensures OneTransmitted(old(Views(mLocalSources)), t, ok, Views(mLocalSources), calls)
    {
      ok, calls := false, [];
      if t.handle in mLocalSourceByLocalHandle {
        var source := mLocalSourceByLocalHandle[t.handle];
        ghost var i := Locate(t.handle, t.data);
        hide Mapped, DistinctLocals, FindLocal, Views, HasObject, WithLast;
        StoreLastData(source, t.data, i);
        calls := [UpdateData(source.mObjectInstanceHandle.value, t.data)];
        ok := true;
      }
    }

    /** Where the source of a handle in the map is listed. */
    lemma Locate(h: Handle, data: Payload) returns (i: nat)
      requires Valid() && DistinctLocals(Views(mLocalSources)) && h in mLocalSourceByLocalHandle
      ensures i < |mLocalSources| && mLocalSources[i] == mLocalSourceByLocalHandle[h]
        && mLocalSources[i].mObjectInstanceHandle.Some?
      ensures HasObject(Views(mLocalSources), h) && FindLocal(Views(mLocalSources), h) == Some(mLocalSources[i].View())
      ensures WithLast(Views(mLocalSources), h, data) ==
        Views(mLocalSources)[i := mLocalSources[i].View().(last := data)]
    {
      i :| 0 <= i < |mLocalSources| && mLocalSources[i] == mLocalSourceByLocalHandle[h];
      FindLocalAt(Views(mLocalSources), i);
      hide DistinctLocals, FindLocal;
    }

    method RegisterBufferedDOTargets() returns (calls: seq<RtiCall>)
      requires Valid()
      modifies `mLocalTargets, `mLocalTargetCallbacks, `mNextUuid, `mBufferedRegisterDOTargets
      ensures Valid() && View() == CreateTargets(old(View()),
        old(mBufferedRegisterDOTargets)).st.(bufferedTargets := [])
      ensures calls == CreateTargets(old(View()), old(mBufferedRegisterDOTargets)).calls
    {
      hide Views, CreateTarget, CreateTargets;
      ghost var was := View();
      calls := [];
      NoTargets(was);
      assert mBufferedRegisterDOTargets[..0] == [];
      for i := 0 to |mBufferedRegisterDOTargets|
        invariant Valid() && mBufferedRegisterDOTargets == old(mBufferedRegisterDOTargets)
        invariant View() == CreateTargets(was, mBufferedRegisterDOTargets[..i]).st
        invariant calls == CreateTargets(was, mBufferedRegisterDOTargets[..i]).calls
      {
        CreateTargetsSnoc(was, mBufferedRegisterDOTargets[..i], mBufferedRegisterDOTargets[i]);
        assert mBufferedRegisterDOTargets[..i] + [mBufferedRegisterDOTargets[i]] == mBufferedRegisterDOTargets[..i + 1];
        var more := RegisterBufferedDOTarget(mBufferedRegisterDOTargets[i]);
        calls := calls + more;
      }
      assert mBufferedRegisterDOTargets[..|mBufferedRegisterDOTargets|] == mBufferedRegisterDOTargets;
      ghost var all := View();
      mBufferedRegisterDOTargets := [];
      assert View() == all.(bufferedTargets := []);
    }

    /** The next buffered source, after those before it. */
    method RegisterNextDOSource(i: nat, ghost was: seq<Source>, ghost uuid: Uuid) returns (call: RtiCall)
      requires Valid() && i < |mBufferedRegisterDOSources| && mNextUuid == uuid + i
      requires Views(mLocalSources) == was + CreatedSources(mBufferedRegisterDOSources[..i], uuid)
      modifies `mLocalSources, `mNextUuid
      ensures Valid() && mNextUuid == uuid + i + 1
      ensures Views(mLocalSources) == was + CreatedSources(mBufferedRegisterDOSources[..i + 1], uuid)
      ensures Reservations(uuid, i) + [call] == Reservations(uuid, i + 1)
      ensures old(mLocalSources) <= mLocalSources && fresh(mLocalSources[|old(mLocalSources)|..])
    {
      hide *;
      CreatedMore(was, mBufferedRegisterDOSources, i, uuid);
      call := RegisterBufferedDOSource(mBufferedRegisterDOSources[i]);
    }

    method RegisterBufferedDOSources() returns (calls: seq<RtiCall>)
      requires Valid()
      modifies `mLocalSources, `mNextUuid, `mBufferedRegisterDOSources
      ensures Valid() && mBufferedRegisterDOSources == []
        && mNextUuid == old(mNextUuid) + |old(mBufferedRegisterDOSources)|
      ensures Views(mLocalSources) == old(Views(mLocalSources))
        + CreatedSources(old(mBufferedRegisterDOSources), old(mNextUuid))
      ensures calls == Reservations(old(mNextUuid), |old(mBufferedRegisterDOSources)|)
      ensures old(mLocalSources) <= mLocalSources && fresh(mLocalSources[|old(mLocalSources)|..])
    {
      ghost var was, uuid := Views(mLocalSources), mNextUuid;
      calls := [];
      assert was + CreatedSources([], uuid) == was && mBufferedRegisterDOSources[..0] == []
        && Reservations(uuid, 0) == [];
      hide *;
      for i := 0 to |mBufferedRegisterDOSources|
        invariant Valid() && mBufferedRegisterDOSources == old(mBufferedRegisterDOSources) && mNextUuid == uuid + i
        invariant Views(mLocalSources) == was + CreatedSources(mBufferedRegisterDOSources[..i], uuid)
        invariant calls == Reservations(uuid, i)
        invariant old(mLocalSources) <= mLocalSources && fresh(mLocalSources[|old(mLocalSources)|..])
      {
        ghost var before := mLocalSources;
        var call := RegisterNextDOSource(i, was, uuid);
        calls := calls + [call];
        Extended(old(mLocalSources), before, mLocalSources);
      }
      assert mBufferedRegisterDOSources[..|mBufferedRegisterDOSources|] == mBufferedRegisterDOSources;
      mBufferedRegisterDOSources := [];
    }

    /** One buffered transmission, after those already done: kept unless handed over. */
    method KeepUnlessTransmitted(t: Transmit, kept: seq<Transmit>, calls: seq<RtiCall>, ghost was: seq<Source>,
        ghost done: seq<Transmit>)
      returns (keptNow: seq<Transmit>, callsNow: seq<RtiCall>)
      requires Valid() && DistinctLocals(Views(mLocalSources)) && HaveObjects(was, mLocalSourceByLocalHandle.Keys)
      requires Transmitted(was, mLocalSourceByLocalHandle.Keys, done, Views(mLocalSources), kept, calls)
      modifies mLocalSources
      ensures Valid() && DistinctLocals(Views(mLocalSources))
      ensures Transmitted(was, mLocalSourceByLocalHandle.Keys, done + [t], Views(mLocalSources), keptNow, callsNow)
    {
      hide *;
      ghost var before := Views(mLocalSources);
      var ok, more := BufferedTransmitDOMember(t);
      TransmitMore(was, mLocalSourceByLocalHandle.Keys, done, t, before, kept, calls, Views(mLocalSources), more);
      keptNow, callsNow := kept + (if ok then [] else [t]), calls + more;
    }

    /** What the map does not know yet stays buffered. */
    method BufferedTransmits() returns (calls: seq<RtiCall>)
      requires Valid() && DistinctLocals(Views(mLocalSources))
      requires HaveObjects(Views(mLocalSources), mLocalSourceByLocalHandle.Keys)
      modifies `mBufferedTransmit, mLocalSources
      ensures Valid() && View() == old(View()).(locals := Views(mLocalSources), transmits := mBufferedTransmit)
      ensures Transmitted(old(Views(mLocalSources)), mLocalSourceByLocalHandle.Keys, old(mBufferedTransmit),
                          Views(mLocalSources), mBufferedTransmit, calls)
    {
      hide Valid, Views, DistinctLocals, HaveObjects, Transmitted;
      ghost var was := Views(mLocalSources);
      var kept := [];
      calls := [];
      NothingTransmitted(was, mLocalSourceByLocalHandle.Keys);
      assert mBufferedTransmit[..0] == [];
      for i := 0 to |mBufferedTransmit|
        invariant Valid() && DistinctLocals(Views(mLocalSources)) && mBufferedTransmit == old(mBufferedTransmit)
        invariant Transmitted(was, mLocalSourceByLocalHandle.Keys, mBufferedTransmit[..i], Views(mLocalSources),
          kept, calls)
      {
        assert mBufferedTransmit[..i] + [mBufferedTransmit[i]] == mBufferedTransmit[..i + 1];
        kept, calls := KeepUnlessTransmitted(mBufferedTransmit[i], kept, calls, was, mBufferedTransmit[..i]);
      }
      assert mBufferedTransmit[..|mBufferedTransmit|] == mBufferedTransmit;
      mBufferedTransmit := kept;
    }

    /** Both kinds of registration; mid is the state between the two. */
    method RegisterBuffered() returns (calls: seq<RtiCall>, ghost mid: State)
      requires Valid()
      modifies `mLocalTargets, `mLocalTargetCallbacks, `mNextUuid, `mBufferedRegisterDOTargets, `mLocalSources,
        `mBufferedRegisterDOSources
      ensures Valid() && old(mLocalSources) <= mLocalSources && fresh(mLocalSources[|old(mLocalSources)|..])
      ensures mid == CreateTargets(old(View()), old(mBufferedRegisterDOTargets)).st.(bufferedTargets := [])
      ensures View() == mid.(buffered := [], locals := Views(mLocalSources),
        nextUuid := mid.nextUuid + |old(mBufferedRegisterDOSources)|)
      ensures Views(mLocalSources) == old(Views(mLocalSources))
        + CreatedSources(old(mBufferedRegisterDOSources), mid.nextUuid)
      ensures calls == CreateTargets(old(View()), old(mBufferedRegisterDOTargets)).calls
        + Reservations(mid.nextUuid, |old(mBufferedRegisterDOSources)|)
    {
      hide Views, Valid, CreateTargets, CreatedSources, Reservations;
      var a := RegisterBufferedDOTargets();
      mid := View();
      var b := RegisterBufferedDOSources();
      calls := a + b;
    }

    /** Targets first, then sources, then the transmissions. */
    method ProcessBuffers() returns (calls: seq<RtiCall>)
      requires Valid() && Distinguished(View())
      modifies `mLocalTargets, `mLocalTargetCallbacks, `mNextUuid, `mBufferedRegisterDOTargets
      modifies `mLocalSources, `mBufferedRegisterDOSources, `mBufferedTransmit, mLocalSources
      ensures Valid() && View() == DOModel.ProcessBuffers(old(View())).st
        && calls == DOModel.ProcessBuffers(old(View())).calls
    {
      ghost var was := View();
      ViewFields();
      assert DistinctLocals(Views(mLocalSources));
      hide *;
      MapHasObjects();
      ghost var mid;
      calls, mid := RegisterBuffered();
      assert mLocalSources == old(mLocalSources) + mLocalSources[|old(mLocalSources)|..];
      ReadyToTransmit(was, mid, Views(mLocalSources));
      ghost var before := Views(mLocalSources);
      var data := BufferedTransmits();
      calls := calls + data;
      ProcessedBuffers(was, mid, before, Views(mLocalSources), mBufferedTransmit, data);
    }

    lemma ViewFields()
      ensures View().buffered == mBufferedRegisterDOSources && View().bufferedTargets == mBufferedRegisterDOTargets
      ensures View().locals == Views(mLocalSources) && View().usable == mLocalSourceByLocalHandle.Keys
      ensures View().transmits == mBufferedTransmit
    {
    }

    // ----- Callbacks of the RTI -----

    method OnDOSourceObjectReservationCompleted(uuid: Uuid, obj: Object) returns (calls: seq<RtiCall>)
      requires Valid()
      modifies `mLocalSourceByLocalHandle, mLocalSources
      ensures Valid() && View() == SourceReserved(old(View()), uuid, obj).st
        && calls == SourceReserved(old(View()), uuid, obj).calls
    {
      calls := [];
      var i := FindByUuid(uuid);
      hide FindUuid, Views, Mapped;
      if i < |mLocalSources| {
        calls := RegisterInstance(i, obj);
      }
    }

    method FindByUuid(uuid: Uuid) returns (i: nat)
      ensures i <= |mLocalSources| && (i < |mLocalSources| ==> mLocalSources[i].mUUID == uuid)
      ensures FindUuid(Views(mLocalSources), uuid) == if i < |mLocalSources| then Some(i) else None
    {
      i := 0;
      while i < |mLocalSources| && mLocalSources[i].mUUID != uuid
        invariant 0 <= i <= |mLocalSources| && forall j :: 0 <= j < i ==> mLocalSources[j].mUUID != uuid
      {
        i := i + 1;
      }
      FindUuidAt(Views(mLocalSources), uuid, i);
    }

    /** The object is saved in the source and announced; then the source can be found in the map. */
    method RegisterInstance(i: nat, obj: Object) returns (calls: seq<RtiCall>)
      requires Valid() && i < |mLocalSources|
      modifies `mLocalSourceByLocalHandle, mLocalSources[i]
      ensures Valid()
      ensures Views(mLocalSources) == old(Views(mLocalSources))[i := old(Views(mLocalSources))[i].(obj := Some(obj))]
      ensures mLocalSourceByLocalHandle.Keys == old(mLocalSourceByLocalHandle).Keys + {mLocalSources[i].mLocalHandle}
      ensures var s := old(mLocalSources[i].View());
        calls == [RegisterObject(obj, s.uuid), UpdateName(obj, s.name, s.conn, s.last)]
    {
      var source := mLocalSources[i];
      source.mObjectInstanceHandle := Some(obj);
      calls := [RegisterObject(obj, source.mUUID), UpdateName(obj, source.mName, source.mConnectionType,
        source.mLastDataVec)];
      mLocalSourceByLocalHandle := mLocalSourceByLocalHandle[source.mLocalHandle := source];
    }

    method ProvideAttributeValueUpdate(obj: Object, nameUpdate: bool) returns (calls: seq<RtiCall>)
      ensures calls == ProvideSource(View(), obj, nameUpdate).calls
    {
      calls := [];
      var i := 0;
      while i < |mLocalSources| && mLocalSources[i].mObjectInstanceHandle != Some(obj)
        invariant 0 <= i <= |mLocalSources| && forall j :: 0 <= j < i ==>
          mLocalSources[j].mObjectInstanceHandle != Some(obj)
      {
        i := i + 1;
      }
      FindObjectAt(Views(mLocalSources), obj, i);
      if i < |mLocalSources| {
        var source := mLocalSources[i];
        if nameUpdate {
          calls := [UpdateName(obj, source.mName, source.mConnectionType, source.mLastDataVec)];
        } else if source.mLastDataVec != [] {
          calls := [UpdateData(obj, source.mLastDataVec)];
        }
      }
    }

    /** Whether a local target has this name and connection type. */
    method HasCounterpart(name: string, conn: string) returns (found: bool)
      ensures found == HasLocalTarget(mLocalTargets, name, conn)
    {
      found := false;
      for i := 0 to |mLocalTargets|
        invariant found == exists j :: 0 <= j < i && mLocalTargets[j].name == name && mLocalTargets[j].conn == conn
      {
        if mLocalTargets[i].name == name && mLocalTargets[i].conn == conn {
          found := true;
        }
      }
    }

    /** A name update makes an unknown source known, a value update of a known source reaches the
        callback; anything else is ignored. */
    method HandleDOSourceObjectUpdate(obj: Object, attrs: Attributes) returns (calls: seq<RtiCall>, events: seq<Event>)
      requires Valid()
      modifies `mRemoteSources, `mRemoteSourceByObjectInstanceHandle
      ensures Valid() && View() == HandleSourceUpdate(old(View()), obj, attrs).st
      ensures calls == HandleSourceUpdate(old(View()), obj, attrs).calls
        && events == HandleSourceUpdate(old(View()), obj, attrs).events
    {
      hide Views, Valid, HasLocalTarget;
      calls, events := [], [];
      var newSource := obj !in mRemoteSourceByObjectInstanceHandle;
      if attrs.identity.Some? {
        if newSource {
          var (name, conn) := attrs.identity.value;
          var remote := Remote(name, conn, obj);
          mRemoteSources := mRemoteSources + [remote];
          mRemoteSourceByObjectInstanceHandle := mRemoteSourceByObjectInstanceHandle[obj := remote];
          if conn in mDODiscoverers {
            events := [DiscoverSource(obj)];
          }
          var hasLocalTarget := HasCounterpart(name, conn);
          if hasLocalTarget {
            if attrs.data.Some? && attrs.data.value != [] && (conn, name) in mLocalTargetCallbacks {
              events := events + [Receive(mLocalTargetCallbacks[(conn, name)], attrs.data.value)];
            }
          } else {
            calls := [Unsubscribe(obj)];
          }
        }
      } else if !newSource {
        var remote := mRemoteSourceByObjectInstanceHandle[obj];
        if (remote.conn, remote.name) in mLocalTargetCallbacks && attrs.data.Some? {
          events := [Receive(mLocalTargetCallbacks[(remote.conn, remote.name)], attrs.data.value)];
        }
      }
    }

    method HandleDOTargetObjectUpdate(obj: Object, identity: Option<(string, string)>) returns (events: seq<Event>)
      requires Valid()
      modifies `mRemoteTargets, `mRemoteTargetByObjectInstanceHandle
      ensures Valid() && View() == HandleTargetUpdate(old(View()), obj, identity).st
      ensures events == HandleTargetUpdate(old(View()), obj, identity).events
    {
      hide Views, Valid;
      events := [];
      if obj !in mRemoteTargetByObjectInstanceHandle {
        if identity.None? {
          return;
        }
        var (name, conn) := identity.value;
        var remote := Remote(name, conn, obj);
        mRemoteTargets := mRemoteTargets + [remote];
        mRemoteTargetByObjectInstanceHandle := mRemoteTargetByObjectInstanceHandle[obj := remote];
        if conn in mDODiscoverers {
          events := [DiscoverTarget(obj)];
        }
      }
    }

    method RemoveSourceInstance(obj: Object) returns (events: seq<Event>)
      requires Valid()
      modifies `mRemoteSources, `mRemoteSourceByObjectInstanceHandle
      ensures Valid() && View() == RemoveSourceObject(old(View()), obj).st
        && events == RemoveSourceObject(old(View()), obj).events
    {
      hide Views, Valid;
      ghost var was := View();
      events := [];
      var i := FindInstance(mRemoteSources, obj);
      RemovedSource(was, obj, i);
      hide RemoveSourceObject;
      if i < |mRemoteSources| {
        if mRemoteSources[i].conn in mDODiscoverers {
          events := [LostSource(obj)];
        }
        mRemoteSourceByObjectInstanceHandle := mRemoteSourceByObjectInstanceHandle - {obj};
        mRemoteSources := mRemoteSources[..i] + mRemoteSources[i + 1..];
        assert View() == was.(remotes := mRemoteSources, remoteIndex := mRemoteSourceByObjectInstanceHandle);
      }
    }

    method RemoveTargetInstance(obj: Object) returns (events: seq<Event>)
      requires Valid()
      modifies `mRemoteTargets, `mRemoteTargetByObjectInstanceHandle
      ensures Valid() && View() == RemoveTargetObject(old(View()), obj).st
        && events == RemoveTargetObject(old(View()), obj).events
    {
      hide Views, Valid;
      ghost var was := View();
      events := [];
      var i := FindInstance(mRemoteTargets, obj);
      RemovedTarget(was, obj, i);
      hide RemoveTargetObject;
      if i < |mRemoteTargets| {
        if mRemoteTargets[i].conn in mDODiscoverers {
          events := [LostTarget(obj)];
        }
        mRemoteTargetByObjectInstanceHandle := mRemoteTargetByObjectInstanceHandle - {obj};
        mRemoteTargets := mRemoteTargets[..i] + mRemoteTargets[i + 1..];
        assert View() == was.(remoteTargets := mRemoteTargets,
          remoteTargetIndex := mRemoteTargetByObjectInstanceHandle);
      }
    }

    // ----- Unregistration and reset -----

    /** Removed from the persistent registrations, and from the buffered ones or else from the map
        and the local sources; while online its HLA object is deleted. */
    method UnregisterDOMemberSource(h: Handle) returns (calls: seq<RtiCall>)
      requires Valid()
      modifies `mPersistentRegisterDOSources, `mBufferedRegisterDOSources, `mLocalSourceByLocalHandle, `mLocalSources
      ensures Valid() && View() == UnregisterSource(old(View()), h).st
        && calls == UnregisterSource(old(View()), h).calls
    {
      hide Views, Valid, RegisteredHandles, LocalHandles, WithoutRegistration, WithoutSource, FindLocal;
      calls := [];
      var i := FindHandle(mPersistentRegisterDOSources, h);
      if i < |mPersistentRegisterDOSources| {
        mPersistentRegisterDOSources := mPersistentRegisterDOSources[..i] + mPersistentRegisterDOSources[i + 1..];
        calls := UnregisterBuffered(h);
      }
    }

    method UnregisterBuffered(h: Handle) returns (calls: seq<RtiCall>)
      requires Valid()
      modifies `mBufferedRegisterDOSources, `mLocalSourceByLocalHandle, `mLocalSources
      ensures Valid()
      ensures View() == WithoutBuffered(old(View()), h).st && calls == WithoutBuffered(old(View()), h).calls
    {
      hide Views, Valid, RegisteredHandles, LocalHandles, WithoutRegistration, WithoutSource, FindLocal;
      calls := [];
      NotLocal(Views(mLocalSources), h);
      var j := FindHandle(mBufferedRegisterDOSources, h);
      if j < |mBufferedRegisterDOSources| {
        mBufferedRegisterDOSources := mBufferedRegisterDOSources[..j] + mBufferedRegisterDOSources[j + 1..];
      } else {
        calls := UnregisterLocal(h);
      }
    }

    method FindSource(h: Handle) returns (k: nat)
      ensures k <= |mLocalSources| && (k < |mLocalSources| ==> mLocalSources[k].mLocalHandle == h)
      ensures k < |mLocalSources| <==> h in LocalHandles(Views(mLocalSources))
      ensures k < |mLocalSources| ==> FindLocal(Views(mLocalSources), h) == Some(mLocalSources[k].View())
      ensures WithoutSource(Views(mLocalSources), h) ==
        if k < |mLocalSources| then Views(mLocalSources)[..k] + Views(mLocalSources)[k + 1..] else Views(mLocalSources)
    {
      k := 0;
      while k < |mLocalSources| && mLocalSources[k].mLocalHandle != h
        invariant 0 <= k <= |mLocalSources| && forall j :: 0 <= j < k ==> mLocalSources[j].mLocalHandle != h
      {
        k := k + 1;
      }
      ghost var was := Views(mLocalSources);
      HandlesFirst(was, h, k);
      FindLocalFirst(was, h, k);
      WithoutSourceFirst(was, h, k);
    }

    method UnregisterLocal(h: Handle) returns (calls: seq<RtiCall>)
      requires Valid()
      modifies `mLocalSourceByLocalHandle, `mLocalSources
      ensures Valid() && mLocalSourceByLocalHandle.Keys ==
        if h in LocalHandles(old(Views(mLocalSources))) then old(mLocalSourceByLocalHandle).Keys - {h}
          else old(mLocalSourceByLocalHandle).Keys
      ensures Views(mLocalSources) == WithoutSource(old(Views(mLocalSources)), h)
      ensures calls == if h in LocalHandles(old(Views(mLocalSources))) && mState.Online?
        then [DeleteObject(FindLocal(old(Views(mLocalSources)), h).value.obj)] else []
    {
      hide FindLocal, WithoutSource, LocalHandles, Mapped;
      calls := [];
      var k := FindSource(h);
      if k < |mLocalSources| {
        if mState.Online? {
          calls := [DeleteObject(mLocalSources[k].mObjectInstanceHandle)];
        }
        RemoveSource(k);
      }
    }

    /** Out of the map first, then out of the list. */
    method RemoveSource(k: nat)
      requires Valid() && k < |mLocalSources|
      modifies `mLocalSourceByLocalHandle, `mLocalSources
      ensures Valid()
      ensures mLocalSourceByLocalHandle == old(mLocalSourceByLocalHandle) - {old(mLocalSources)[k].mLocalHandle}
      ensures Views(mLocalSources) == old(Views(mLocalSources))[..k] + old(Views(mLocalSources))[k + 1..]
    {
      MappedWithout(mLocalSources, mLocalSourceByLocalHandle, k);
      hide Mapped;
      mLocalSourceByLocalHandle := mLocalSourceByLocalHandle - {mLocalSources[k].mLocalHandle};
      mLocalSources := mLocalSources[..k] + mLocalSources[k + 1..];
    }

    /** Last data moves from the sources to their registrations; then everything about the session
        is forgotten. The state is changed by the ambassador. */
    method Reset()
      requires Valid() && DistinctLocals(Views(mLocalSources))
      modifies `mPersistentRegisterDOSources, `mLocalSources, `mLocalTargets, `mRemoteSources, `mRemoteTargets
      modifies `mRemoteSourceByObjectInstanceHandle, `mRemoteTargetByObjectInstanceHandle, `mLocalTargetCallbacks,
        `mLocalSourceByLocalHandle
      modifies `mBufferedRegisterDOSources, `mBufferedRegisterDOTargets, `mBufferedTransmit
      ensures Valid() && View() == DOModel.Reset(old(View())).(phase := mState)
    {
      hide SavedLast, DistinctLocals, Mapped, Views;
      SaveLastData();
      ForgetSession();
    }

    method ForgetSession()
      modifies `mLocalSources, `mLocalTargets, `mRemoteSources, `mRemoteTargets
      modifies `mRemoteSourceByObjectInstanceHandle, `mRemoteTargetByObjectInstanceHandle, `mLocalTargetCallbacks,
        `mLocalSourceByLocalHandle
      modifies `mBufferedRegisterDOSources, `mBufferedRegisterDOTargets, `mBufferedTransmit
      ensures Valid()
      ensures View() == State(mState, mPersistentRegisterDOSources, [], [], {}, [], mPersistentRegisterDOTargets, [],
        [], map[], [], map[], [], map[], mNextLocalDOSourceHandle, mNextLocalDOTargetHandle, mNextUuid,
        mDODiscoverers)
    {
      ForgetBuffers();
      ForgetObjects();
    }

    method ForgetObjects()
      modifies `mLocalSources, `mLocalTargets, `mRemoteSources, `mRemoteTargets
      modifies `mRemoteSourceByObjectInstanceHandle, `mRemoteTargetByObjectInstanceHandle, `mLocalTargetCallbacks,
        `mLocalSourceByLocalHandle
      ensures Valid() && Views(mLocalSources) == [] && mLocalSourceByLocalHandle == map[]
      ensures mLocalTargets == [] && mLocalTargetCallbacks == map[]
      ensures mRemoteSources == [] && mRemoteTargets == []
      ensures mRemoteSourceByObjectInstanceHandle == map[] && mRemoteTargetByObjectInstanceHandle == map[]
    {
      mLocalSources, mLocalTargets, mRemoteSources, mRemoteTargets := [], [], [], [];
      mRemoteSourceByObjectInstanceHandle, mRemoteTargetByObjectInstanceHandle := map[], map[];
      mLocalTargetCallbacks, mLocalSourceByLocalHandle := map[], map[];
    }

    method ForgetBuffers()
      modifies `mBufferedRegisterDOSources, `mBufferedRegisterDOTargets, `mBufferedTransmit
      ensures mBufferedRegisterDOSources == [] && mBufferedRegisterDOTargets == [] && mBufferedTransmit == []
    {
      mBufferedRegisterDOSources, mBufferedRegisterDOTargets, mBufferedTransmit := [], [], [];
    }

    method SaveLastData()
      requires Valid() && DistinctLocals(Views(mLocalSources))
      modifies `mPersistentRegisterDOSources
      ensures mPersistentRegisterDOSources ==
        SavedLast(old(mPersistentRegisterDOSources), Views(mLocalSources), mLocalSourceByLocalHandle.Keys)
    {
      hide Views, Valid, DistinctLocals, SavedOne;
      for i := 0 to |mPersistentRegisterDOSources|
        invariant |mPersistentRegisterDOSources| == |old(mPersistentRegisterDOSources)|
        invariant forall j :: 0 <= j < i ==>
          mPersistentRegisterDOSources[j] == SavedOne(old(mPersistentRegisterDOSources)[j], Views(mLocalSources),
            mLocalSourceByLocalHandle.Keys)
        invariant forall j :: i <= j < |mPersistentRegisterDOSources| ==>
          mPersistentRegisterDOSources[j] == old(mPersistentRegisterDOSources)[j]
      {
        var p := WithLastData(mPersistentRegisterDOSources[i]);
        mPersistentRegisterDOSources := mPersistentRegisterDOSources[i := p];
      }
    }

    method WithLastData(p: SourceRegistration) returns (r: SourceRegistration)
      requires Valid() && DistinctLocals(Views(mLocalSources))
      ensures r == SavedOne(p, Views(mLocalSources), mLocalSourceByLocalHandle.Keys)
    {
      r := p;
      if p.handle in mLocalSourceByLocalHandle {
        var source := mLocalSourceByLocalHandle[p.handle];
        ghost var k :| 0 <= k < |mLocalSources| && mLocalSources[k] == source;
        FindLocalAt(Views(mLocalSources), k);
        assert p.handle in LocalHandles(Views(mLocalSources)) by {
          assert Views(mLocalSources)[k] in Views(mLocalSources);
        }
        hide FindLocal, LocalHandles;
        if source.mLastDataVec != [] {
          r := p.(last := source.mLastDataVec);
        }
      }
    }
  }

  method FindInstance(rs: seq<Remote>, obj: Object) returns (i: nat)
    ensures i <= |rs| && (forall j :: 0 <= j < i ==> rs[j].obj != obj) && (i < |rs| ==> rs[i].obj == obj)
  {
    i := 0;
    while i < |rs| && rs[i].obj != obj
      invariant i <= |rs| && forall j :: 0 <= j < i ==> rs[j].obj != obj
    {
      i := i + 1;
    }
  }

  method FindHandle(rs: seq<SourceRegistration>, h: Handle) returns (i: nat)
    ensures i <= |rs| && (i < |rs| <==> h in RegisteredHandles(rs))
    ensures WithoutRegistration(rs, h) == if i < |rs| then rs[..i] + rs[i + 1..] else rs
  {
    i := 0;
    while i < |rs| && rs[i].handle != h
      invariant i <= |rs| && forall j :: 0 <= j < i ==> rs[j].handle != h
    {
      i := i + 1;
    }
    WithoutFirst(rs, h, i);
  }

  lemma {:induction false} WithoutFirst(rs: seq<SourceRegistration>, h: Handle, i: nat)
    requires i <= |rs| && (forall j :: 0 <= j < i ==> rs[j].handle != h) && (i < |rs| ==> rs[i].handle == h)
    ensures i < |rs| <==> h in RegisteredHandles(rs)
    ensures WithoutRegistration(rs, h) == if i < |rs| then rs[..i] + rs[i + 1..] else rs
  {
    if i > 0 {
      assert rs == [rs[0]] + rs[1..];
      WithoutFirst(rs[1..], h, i - 1);
      RegisteredConcat([rs[0]], rs[1..]);
    } else if rs != [] {
      assert rs[0] in rs;
    }
  }

  lemma HandlesFirst(ss: seq<Source>, h: Handle, k: nat)
    requires k <= |ss| && (forall j :: 0 <= j < k ==> ss[j].handle != h) && (k < |ss| ==> ss[k].handle == h)
    ensures k < |ss| <==> h in LocalHandles(ss)
  {
    if k < |ss| { assert ss[k] in ss; }
  }

  lemma {:induction false} FindLocalFirst(ss: seq<Source>, h: Handle, k: nat)
    requires k <= |ss| && (forall j :: 0 <= j < k ==> ss[j].handle != h) && (k < |ss| ==> ss[k].handle == h)
    ensures k < |ss| ==> FindLocal(ss, h) == Some(ss[k])
  {
    if k > 0 { FindLocalFirst(ss[1..], h, k - 1); }
  }

  lemma {:induction false} WithoutSourceFirst(ss: seq<Source>, h: Handle, k: nat)
    requires k <= |ss| && (forall j :: 0 <= j < k ==> ss[j].handle != h) && (k < |ss| ==> ss[k].handle == h)
    ensures WithoutSource(ss, h) == if k < |ss| then ss[..k] + ss[k + 1..] else ss
  {
    if k > 0 {
      var rest := ss[1..];
      WithoutSourceFirst(rest, h, k - 1);
      assert ss == [ss[0]] + rest;
      WithoutSourceCons(ss[0], rest, h);
      hide WithoutSource;
      if k < |ss| { SkipFirst(ss, k); }
    }
  }

  lemma WithoutSourceCons(s: Source, rest: seq<Source>, h: Handle)
    ensures WithoutSource([s] + rest, h) == if s.handle == h then rest else [s] + WithoutSource(rest, h)
  {
    assert ([s] + rest)[1..] == rest;
  }

  lemma SkipFirst(ss: seq<Source>, k: nat)
    requires 0 < k < |ss|
    ensures [ss[0]] + (ss[1..][..k - 1] + ss[1..][k..]) == ss[..k] + ss[k + 1..]
  {
  }

  lemma NotLocal(ss: seq<Source>, h: Handle)
    ensures h !in LocalHandles(ss) ==> WithoutSource(ss, h) == ss
  {
    if h !in LocalHandles(ss) {
      assert forall j :: 0 <= j < |ss| ==> ss[j] in ss && ss[j].handle != h;
      WithoutSourceFirst(ss, h, |ss|);
    }
  }

  lemma {:induction false} FindRemoteAt(rs: seq<Remote>, obj: Object, i: nat)
    requires i <= |rs| && (forall j :: 0 <= j < i ==> rs[j].obj != obj) && (i < |rs| ==> rs[i].obj == obj)
    ensures FindRemote(rs, obj) == if i < |rs| then Some(i) else None
  {
    if i > 0 { FindRemoteAt(rs[1..], obj, i - 1); }
  }

  lemma RemovedSource(st: State, obj: Object, i: nat)
    requires i <= |st.remotes| && (forall j :: 0 <= j < i ==> st.remotes[j].obj != obj)
      && (i < |st.remotes| ==> st.remotes[i].obj == obj)
    ensures RemoveSourceObject(st, obj) == if i == |st.remotes| then Effect(st, [], []) else
      Effect(st.(remotes := st.remotes[..i] + st.remotes[i + 1..], remoteIndex := st.remoteIndex - {obj}),
             [], if st.remotes[i].conn in st.discoverers then [LostSource(obj)] else [])
  {
    FindRemoteAt(st.remotes, obj, i);
    hide FindRemote;
  }

  lemma RemovedTarget(st: State, obj: Object, i: nat)
    requires i <= |st.remoteTargets| && (forall j :: 0 <= j < i ==> st.remoteTargets[j].obj != obj)
      && (i < |st.remoteTargets| ==> st.remoteTargets[i].obj == obj)
    ensures RemoveTargetObject(st, obj) == if i == |st.remoteTargets| then Effect(st, [], []) else
      Effect(st.(remoteTargets := st.remoteTargets[..i] + st.remoteTargets[i + 1..],
        remoteTargetIndex := st.remoteTargetIndex - {obj}),
             [], if st.remoteTargets[i].conn in st.discoverers then [LostTarget(obj)] else [])
  {
    FindRemoteAt(st.remoteTargets, obj, i);
    hide FindRemote;
  }

  lemma {:induction false} FindUuidAt(ss: seq<Source>, uuid: Uuid, i: nat)
    requires i <= |ss| && (forall j :: 0 <= j < i ==> ss[j].uuid != uuid) && (i < |ss| ==> ss[i].uuid == uuid)
    ensures FindUuid(ss, uuid) == if i < |ss| then Some(i) else None
  {
    if i > 0 { FindUuidAt(ss[1..], uuid, i - 1); }
  }

  lemma {:induction false} FindObjectAt(ss: seq<Source>, obj: Object, i: nat)
    requires i <= |ss| && (forall j :: 0 <= j < i ==> ss[j].obj != Some(obj)) && (i < |ss| ==> ss[i].obj == Some(obj))
    ensures FindObject(ss, obj) == if i < |ss| then Some(ss[i]) else None
  {
    if i > 0 { FindObjectAt(ss[1..], obj, i - 1); }
  }

  function NewSource(r: SourceRegistration, uuid: Uuid): Source {
    Source(r.name, uuid, r.conn, r.handle, None, r.last)
  }

  function Reservations(uuid: Uuid, n: nat): seq<RtiCall> {
    if n == 0 then [] else Reservations(uuid, n - 1) + [Reserve(uuid + n - 1)]
  }

  lemma Extended<T>(a: seq<T>, b: seq<T>, c: seq<T>)
    requires a <= b && b <= c
    ensures a <= c && c[|a|..] == b[|a|..] + c[|b|..]
  {
  }

  lemma CreatedMore(was: seq<Source>, rs: seq<SourceRegistration>, i: nat, uuid: Uuid)
    requires i < |rs|
    ensures was + CreatedSources(rs[..i + 1], uuid) ==
      was + CreatedSources(rs[..i], uuid) + [NewSource(rs[i], uuid + i)]
    ensures Reservations(uuid, i + 1) == Reservations(uuid, i) + [Reserve(uuid + i)]
  {
    assert CreatedSources(rs[..i + 1], uuid) ==
      CreatedSources(rs[..i], uuid) + [NewSource(rs[i], uuid + i)];
  }

  lemma {:induction false} CreateSourcesCalls(st: State, rs: seq<SourceRegistration>)
    ensures CreateSources(st, rs).calls == Reservations(st.nextUuid, |rs|)
  {
    if rs != [] {
      var n := |rs| - 1;
      CreateSourcesCalls(st, rs[..n]);
      CreateSourcesSummary(st, rs[..n]);
      hide CreatedSources;
    }
  }

  /** These transmissions are dealt with: those of usable sources are handed over and remembered,
      the others kept. */
  ghost predicate Transmitted(was: seq<Source>, usable: set<Handle>, ts: seq<Transmit>,
                              now: seq<Source>, kept: seq<Transmit>, calls: seq<RtiCall>)
  {
    var sent := Sendable(usable, ts);
    now == UpdatedLast(was, sent) && kept == Unsendable(usable, ts) && Ready(was, sent) && calls == DataCalls(was, sent)
  }

  lemma NothingTransmitted(was: seq<Source>, usable: set<Handle>)
    ensures Transmitted(was, usable, [], was, [], [])
  {
    assert UpdatedLast(was, []) == was;
    assert Ready(was, []) && DataCalls(was, []) == [];
  }

  ghost predicate OneTransmitted(now: seq<Source>, t: Transmit, ok: bool, next: seq<Source>, calls: seq<RtiCall>) {
    if ok then
      && HasObject(now, t.handle) && next == WithLast(now, t.handle, t.data)
      && calls == [UpdateData(FindLocal(now, t.handle).value.obj.value, t.data)]
    else next == now && calls == []
  }

  lemma TransmitMore(was: seq<Source>, usable: set<Handle>, ts: seq<Transmit>, t: Transmit,
                     now: seq<Source>, kept: seq<Transmit>, calls: seq<RtiCall>, next: seq<Source>, more: seq<RtiCall>)
    requires HaveObjects(was, usable)
    requires Transmitted(was, usable, ts, now, kept, calls) && DistinctLocals(now)
    requires OneTransmitted(now, t, t.handle in usable, next, more)
    ensures DistinctLocals(next)
    ensures Transmitted(was, usable, ts + [t], next, kept + (if t.handle in usable then [] else [t]), calls + more)
  {
    var sent := Sendable(usable, ts);
    SendableReady(was, usable, ts + [t]);
    SendableSnoc(usable, ts, t);
    hide Sendable, Unsendable, DistinctLocals, Ready, UpdatedLast;
    assert sent + [] == sent && kept + [] == kept && calls + [] == calls;
    if t.handle in usable {
      FindUpdated(was, sent, t.handle);
      UpdatedLastSnoc(was, sent, t);
      DataCallsSnoc(was, sent, t);
      UpdatedKeeps(FindLocal(was, t.handle).value, sent);
      WithLastDistinct(now, t.handle, t.data);
    }
  }

  lemma WithLastDistinct(ss: seq<Source>, h: Handle, data: Payload)
    requires DistinctLocals(ss)
    ensures DistinctLocals(WithLast(ss, h, data))
  {
    SameLocalHandles(ss, WithLast(ss, h, data));
  }

  lemma NoTargets(st: State)
    ensures CreateTargets(st, []) == Effect(st, [], [])
  {
  }

  lemma CreateTargetsSnoc(st: State, rs: seq<TargetRegistration>, r: TargetRegistration)
    ensures CreateTargets(st, rs + [r]).st == CreateTarget(CreateTargets(st, rs).st, r).st
    ensures CreateTargets(st, rs + [r]).calls == CreateTargets(st, rs).calls
      + CreateTarget(CreateTargets(st, rs).st, r).calls
  {
    assert (rs + [r])[..|rs|] == rs;
  }

  lemma {:induction false} RequestsForSnoc(rs: seq<Remote>, r: Remote, name: string)
    ensures RequestsFor(rs + [r], name) == RequestsFor(rs, name) + if r.name == name then [RequestData(r.obj)] else []
  {
    if rs == [] {
      assert [] + [r] == [r];
    } else {
      RequestsForSnoc(rs[1..], r, name);
      assert (rs + [r])[1..] == rs[1..] + [r];
    }
  }

  lemma {:induction false} FindLocalAt(ss: seq<Source>, i: nat)
    requires DistinctLocals(ss) && i < |ss|
    ensures FindLocal(ss, ss[i].handle) == Some(ss[i])
    ensures forall j :: 0 <= j < |ss| && j != i ==> ss[j].handle != ss[i].handle
  {
    if i > 0 {
      FindLocalAt(ss[1..], i - 1);
    }
  }
}
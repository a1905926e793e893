/** Value entities with their callbacks, and the data members at the two ends that use them. */
module Values {
  import opened Wrappers
  import opened Packets
  import opened DOModel
  import opened LateJoin
  import opened LateJoinRuns

  type CallbackHandle = nat

  datatype ValueUpdateMode = OnChange | OnUpdate

  function Without(hs: seq<CallbackHandle>, h: CallbackHandle): seq<CallbackHandle> {
    if hs == [] then [] else
      var n := |hs| - 1;
      Without(hs[..n], h) + if hs[n] == h then [] else [hs[n]]
  }

  ghost predicate Once(hs: seq<CallbackHandle>) {
    forall i, j :: 0 <= i < j < |hs| ==> hs[i] != hs[j]
  }

  lemma OnceSnoc(hs: seq<CallbackHandle>, h: CallbackHandle)
    requires Once(hs) && h !in hs
    ensures Once(hs + [h])
  {
    assert forall i :: 0 <= i < |hs| ==> hs[i] in hs;
  }

  lemma {:induction false} WithoutMembers(hs: seq<CallbackHandle>, h: CallbackHandle)
    requires Once(hs)
    ensures forall x :: x in Without(hs, h) <==> x in hs && x != h
    ensures Once(Without(hs, h))
  {
    if hs != [] {
      var n := |hs| - 1;
      assert hs == hs[..n] + [hs[n]];
      assert hs[n] !in hs[..n];
      WithoutMembers(hs[..n], h);
      OnceSnoc(Without(hs[..n], h), hs[n]);
    }
  }

  lemma WithoutSnoc(a: seq<CallbackHandle>, x: CallbackHandle, h: CallbackHandle)
    ensures Without(a + [x], h) == Without(a, h) + if x == h then [] else [x]
  {
    assert (a + [x])[..|a|] == a;
  }

  /** The callbacks that stay registered keep their order. */
  lemma {:induction false} WithoutKeepsOrder(a: seq<CallbackHandle>, b: seq<CallbackHandle>, h: CallbackHandle)
    ensures Without(a + b, h) == Without(a, h) + Without(b, h)
  {
    if b == [] {
      assert a + b == a && Without(b, h) == [];
    } else {
      hide Without;
      var n := |b| - 1;
      assert b == b[..n] + [b[n]] && a + b == (a + b[..n]) + [b[n]];
      WithoutKeepsOrder(a, b[..n], h);
      WithoutSnoc(b[..n], b[n], h);
      WithoutSnoc(a + b[..n], b[n], h);
    }
  }

  /** How often a callback is among those run. */
  function Times(hs: seq<CallbackHandle>, h: CallbackHandle): nat {
    if hs == [] then 0 else Times(hs[..|hs| - 1], h) + if hs[|hs| - 1] == h then 1 else 0
  }

  lemma {:induction false} TimesConcat(a: seq<CallbackHandle>, b: seq<CallbackHandle>, h: CallbackHandle)
    ensures Times(a + b, h) == Times(a, h) + Times(b, h)
  {
    if b == [] {
      assert a + b == a;
    } else {
      var n := |b| - 1;
      TimesConcat(a, b[..n], h);
      assert (a + b)[..|a| + n] == a + b[..n];
    }
  }

  lemma {:induction false} TimesOnce(hs: seq<CallbackHandle>, h: CallbackHandle)
    requires Once(hs)
    ensures Times(hs, h) == if h in hs then 1 else 0
  {
    if hs != [] {
      var n := |hs| - 1;
      TimesOnce(hs[..n], h);
      assert hs == hs[..n] + [hs[n]];
    }
  }

  class ValueEntity {
    var mData: Payload
    var mOnChangeCallbacks: seq<CallbackHandle>
    var mOnUpdateCallbacks: seq<CallbackHandle>
    var mNextCallbackHandle: CallbackHandle

    /** Each handle given out is registered at most once. */
    ghost predicate Valid()
      reads this
    {
      && 1 <= mNextCallbackHandle
      && Once(mOnChangeCallbacks) && Once(mOnUpdateCallbacks)
      && (forall h :: h in mOnChangeCallbacks ==> 1 <= h < mNextCallbackHandle && h !in mOnUpdateCallbacks)
      && (forall h :: h in mOnUpdateCallbacks ==> 1 <= h < mNextCallbackHandle)
    }

    constructor ()
      ensures Valid() && mData == [] && mOnChangeCallbacks == mOnUpdateCallbacks == []
    {
      mData, mOnChangeCallbacks, mOnUpdateCallbacks, mNextCallbackHandle := [], [], [], 1;
    }

    /** An empty callback is refused with the handle 0. */
    method RegisterCallback(isEmpty: bool, mode: ValueUpdateMode) returns (handle: CallbackHandle)
      requires Valid()
      modifies `mOnChangeCallbacks, `mOnUpdateCallbacks, `mNextCallbackHandle
      ensures Valid()
      ensures handle == if isEmpty then 0 else old(mNextCallbackHandle)
      ensures mOnChangeCallbacks == old(mOnChangeCallbacks) + (if !isEmpty && mode.OnChange? then [handle] else [])
      ensures mOnUpdateCallbacks == old(mOnUpdateCallbacks) + (if !isEmpty && mode.OnUpdate? then [handle] else [])
    {
      if isEmpty {
        return 0;
      }
      handle := mNextCallbackHandle;
      OnceSnoc(mOnChangeCallbacks, handle);
      OnceSnoc(mOnUpdateCallbacks, handle);
      mNextCallbackHandle := mNextCallbackHandle + 1;
      match mode
      case OnChange => mOnChangeCallbacks := mOnChangeCallbacks + [handle];
      case OnUpdate => mOnUpdateCallbacks := mOnUpdateCallbacks + [handle];
    }

    method UnregisterCallback(handle: CallbackHandle)
      requires Valid()
      modifies `mOnChangeCallbacks, `mOnUpdateCallbacks
      ensures Valid()
      ensures mOnChangeCallbacks == Without(old(mOnChangeCallbacks), handle)
        && mOnUpdateCallbacks == Without(old(mOnUpdateCallbacks), handle)
      ensures handle !in mOnChangeCallbacks && handle !in mOnUpdateCallbacks
    {
      WithoutMembers(mOnChangeCallbacks, handle);
      WithoutMembers(mOnUpdateCallbacks, handle);
      var updates := RemoveIf(mOnUpdateCallbacks, handle);
      mOnUpdateCallbacks := updates;
      var changes := RemoveIf(mOnChangeCallbacks, handle);
      mOnChangeCallbacks := changes;
    }

    /** The callbacks run, in order: those on change if the data differs, then those on update; each
        registered one at most once. */
    method SetData(newData: Payload) returns (ran: seq<CallbackHandle>)
      requires Valid()
      modifies `mData
      ensures Valid() && mData == newData
      ensures ran == (if newData != old(mData) then mOnChangeCallbacks else []) + mOnUpdateCallbacks
      ensures forall h :: Times(ran, h) == if h in mOnUpdateCallbacks
        || (h in mOnChangeCallbacks && newData != old(mData)) then 1 else 0
    {
      var changed := false;
      if newData != mData {
        mData := newData;
        changed := true;
      }
      ran := [];
      if changed {
        ran := RunAll(ran, mOnChangeCallbacks);
      }
      ran := RunAll(ran, mOnUpdateCallbacks);
      TimesOfRun(if changed then mOnChangeCallbacks else [], mOnUpdateCallbacks);
    }
  }

  lemma TimesOfRun(changes: seq<CallbackHandle>, updates: seq<CallbackHandle>)
    requires Once(changes) && Once(updates) && forall h :: h in changes ==> h !in updates
    ensures forall h :: Times(changes + updates, h) == if h in updates || h in changes then 1 else 0
  {
    forall h ensures Times(changes + updates, h) == if h in updates || h in changes then 1 else 0 {
      TimesConcat(changes, updates, h);
      TimesOnce(changes, h);
      TimesOnce(updates, h);
    }
  }

  method RemoveIf(hs: seq<CallbackHandle>, h: CallbackHandle) returns (kept: seq<CallbackHandle>)
    ensures kept == Without(hs, h)
  {
    kept := [];
    for i := 0 to |hs|
      invariant kept == Without(hs[..i], h)
    {
      assert hs[..i + 1][..i] == hs[..i];
      if hs[i] != h {
        kept := kept + [hs[i]];
      }
    }
    assert hs[..|hs|] == hs;
  }

  method RunAll(before: seq<CallbackHandle>, callbacks: seq<CallbackHandle>) returns (ran: seq<CallbackHandle>)
    ensures ran == before + callbacks
  {
    ran := before;
    for i := 0 to |callbacks|
      invariant ran == before + callbacks[..i]
    {
      ran := ran + [callbacks[i]];
    }
  }

  /** A provided data member, connected: what it gave to the service for transmission. mInitial is
      its value when it was connected, mSets the values set since. */
  class DoProvidedData {
    const mValue: ValueEntity
    const mTxTrigger: ValueUpdateMode
    var mOnTransmitHandle: CallbackHandle
    var mTransmitted: seq<Payload>
    ghost var mInitial: Payload
    ghost var mSets: seq<Payload>

    constructor (txTrigger: ValueUpdateMode)
      ensures mTxTrigger == txTrigger && fresh(mValue) && mValue.Valid() && mValue.mData == [] && mOnTransmitHandle == 0
    {
      mTxTrigger, mOnTransmitHandle, mTransmitted := txTrigger, 0, [];
      mInitial, mSets := [], [];
      mValue := new ValueEntity();
    }

    ghost predicate Connected()
      reads this, mValue
    {
      && mValue.Valid() && mOnTransmitHandle != 0
      && (mOnTransmitHandle in if mTxTrigger.OnChange? then mValue.mOnChangeCallbacks else mValue.mOnUpdateCallbacks)
      && mValue.mData == Value(mInitial, mSets)
      && mTransmitted == Submissions(mTxTrigger.OnChange?, mInitial, mSets)
    }

    method Connect()
      requires mValue.Valid()
      modifies this, mValue
      ensures Connected() && mSets == [] && mInitial == mValue.mData == old(mValue.mData) && mTransmitted == []
    {
      mOnTransmitHandle := mValue.RegisterCallback(false, mTxTrigger);
      mTransmitted := [];
      mInitial, mSets := mValue.mData, [];
    }

    /** Every value set is transmitted behind a header, or every changed one, exactly once. */
    method SetData(newData: Payload)
      requires Connected()
      modifies this, mValue
      ensures Connected() && mValue.mData == newData && mInitial == old(mInitial) && mSets == old(mSets) + [newData]
      ensures mTransmitted == old(mTransmitted) +
        if mTxTrigger.OnChange? && newData == old(mValue.mData) then [] else [DataPacket(newData)]
    {
      hide Submissions, DataPacket, Times;
      assert Copies(DataPacket(newData), 1) == [DataPacket(newData)];
      var ran := mValue.SetData(newData);
      RunCallbacks(ran);
      mSets := mSets + [newData];
      SubmissionsSnoc(mTxTrigger.OnChange?, mInitial, old(mSets), newData);
    }

    /** The transmit callback, as often as it is among those run. */
    method RunCallbacks(ran: seq<CallbackHandle>)
      modifies `mTransmitted
      ensures mTransmitted == old(mTransmitted) + Copies(DataPacket(mValue.mData), Times(ran, mOnTransmitHandle))
    {
      hide DataPacket;
      for i := 0 to |ran|
        invariant mTransmitted == old(mTransmitted) + Copies(DataPacket(mValue.mData),
          Times(ran[..i], mOnTransmitHandle))
      {
        assert ran[..i + 1][..i] == ran[..i];
        if ran[i] == mOnTransmitHandle {
          OnTransmit();
        }
      }
      assert ran[..|ran|] == ran;
    }

    method OnTransmit()
      modifies `mTransmitted
      ensures mTransmitted == old(mTransmitted) + [DataPacket(mValue.mData)]
    {
      var packet := PackData(mValue.mData);
      mTransmitted := mTransmitted + [packet];
    }
  }

  function Copies(p: Payload, n: nat): seq<Payload> {
    if n == 0 then [] else Copies(p, n - 1) + [p]
  }

  /** A consumed data member: what it receives, without the header, becomes its value. */
  class DoConsumedData {
    const mValue: ValueEntity

    constructor ()
      ensures fresh(mValue) && mValue.Valid() && mValue.mData == []
    {
      mValue := new ValueEntity();
    }

    method OnReceive(data: Payload) returns (accepted: bool)
      requires mValue.Valid()
      modifies mValue
      ensures mValue.Valid() && accepted == DataPayload(data).Some?
      ensures mValue.mData == if accepted then DataPayload(data).value else old(mValue.mData)
    {
      hide DataPayload;
      var payload := UnpackData(data);
      accepted := payload.Some?;
      if accepted {
        var ran := mValue.SetData(payload.value);
      }
    }
  }
}

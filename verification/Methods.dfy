/** The objects at the two ends of a method call, as they update their fields. */
module Methods {
  import opened Bits
  import opened Wrappers
  import opened WireFormat
  import opened Packets
  import opened Calls

  /** The context of one call at the consumer. completed is the callback run, if any was. */
  class ConsumerCallContext {
    const mRequestId: int
    var mCallState: CallState
    var mCallback: Option<Callback>
    var mInputParameters: Bytes
    var mOutputParameters: Option<Bytes>

    constructor (requestId: int)
      ensures mRequestId == requestId && mCallState == Initial && mCallback == None && mOutputParameters == None
    {
      mRequestId := requestId;
      mCallState, mCallback, mInputParameters, mOutputParameters := Initial, None, [], None;
    }

    /** Only the first call is accepted; without a callback it is a one-way call. */
    method CallAsync(callback: Option<Callback>) returns (accepted: bool, isOneWayCall: bool)
      modifies `mCallState, `mCallback
      ensures accepted == old(mCallState).Initial?
      ensures accepted ==> mCallState == Called && mCallback == callback && isOneWayCall == callback.None?
      ensures !accepted ==> mCallState == old(mCallState) && mCallback == old(mCallback)
    {
      accepted, isOneWayCall := false, false;
      if mCallState == Initial {
        mCallState := Called;
        mCallback := callback;
        accepted, isOneWayCall := true, mCallback == None;
      }
    }

    /** Accepted only while called: the output is set before the callback runs. */
    method OnReturn(responseData: Bytes) returns (accepted: bool, completed: Option<Callback>)
      modifies `mCallState, `mOutputParameters
      ensures accepted == old(mCallState).Called?
      ensures accepted ==> mCallState == Returned && mOutputParameters == Some(responseData) && completed == mCallback
      ensures !accepted ==>
        mCallState == old(mCallState) && mOutputParameters == old(mOutputParameters) && completed == None
    {
      accepted, completed := false, None;
      if mCallState == Called {
        mCallState := Returned;
        mOutputParameters := Some(responseData);
        accepted, completed := true, mCallback;
      }
    }

    method OnTimeout() returns (accepted: bool, completed: Option<Callback>)
      modifies `mCallState
      ensures accepted == old(mCallState).Called?
      ensures accepted ==> mCallState == Discarded && completed == mCallback
      ensures !accepted ==> mCallState == old(mCallState) && completed == None
    {
      accepted, completed := false, None;
      if mCallState == Called {
        mCallState := Discarded;
        accepted, completed := true, mCallback;
      }
    }
  }

  /** A method consumed: the calls that wait for a response, by request id. */
  class DoConsumedMethod {
    var mNextRequestId: int
    var mPendingCallContexts: map<int, ConsumerCallContext>

    /** Contexts are pending under their own ids, which were all issued. */
    ghost predicate Valid()
      reads this
    {
      && FIRST_ID <= mNextRequestId
      && forall id :: id in mPendingCallContexts ==>
        FIRST_ID <= id < mNextRequestId && mPendingCallContexts[id].mRequestId == id
    }

    constructor ()
      ensures Valid() && mNextRequestId == FIRST_ID && mPendingCallContexts == map[]
    {
      mNextRequestId, mPendingCallContexts := FIRST_ID, map[];
    }

    method CreateCallContext() returns (context: ConsumerCallContext)
      requires Valid()
      modifies this
      ensures Valid() && fresh(context) && context.mCallState == Initial && context.mRequestId == old(mNextRequestId)
      ensures context.mCallback == None && context.mOutputParameters == None
      ensures context.mRequestId !in old(mPendingCallContexts) && mNextRequestId == old(mNextRequestId) + 1
      ensures mPendingCallContexts == old(mPendingCallContexts)[context.mRequestId := context]
    {
      var requestId := mNextRequestId;
      mNextRequestId := mNextRequestId + 1;
      context := new ConsumerCallContext(requestId);
      mPendingCallContexts := mPendingCallContexts[requestId := context];
    }

    /** The request packet of an accepted call; a one-way call is dropped before it is sent. */
    method OnCall(context: ConsumerCallContext, isOneWayCall: bool) returns (request: Bytes)
      requires Valid() && FitsBits(context.mRequestId, true, 64)
      modifies `mPendingCallContexts
      ensures Valid()
      ensures mPendingCallContexts == if isOneWayCall then old(mPendingCallContexts) - {context.mRequestId}
        else old(mPendingCallContexts)
      ensures request == CallPacket(CallHeader(context.mRequestId, if isOneWayCall then RequestNoReturn
        else Request, NoError),
                                    context.mInputParameters)
    {
      hide FitsBits, CallPacket;
      var messageType := if isOneWayCall then RequestNoReturn else Request;
      request := PackCall(CallHeader(context.mRequestId, messageType, NoError), context.mInputParameters);
      if isOneWayCall {
        mPendingCallContexts := mPendingCallContexts - {context.mRequestId};
      }
    }

    method PopCallContext(requestId: int) returns (context: Option<ConsumerCallContext>)
      requires Valid()
      modifies `mPendingCallContexts
      ensures Valid() && mPendingCallContexts == old(mPendingCallContexts) - {requestId}
      ensures context == if requestId in old(mPendingCallContexts) then Some(old(mPendingCallContexts)[requestId])
        else None
    {
      context := None;
      if requestId in mPendingCallContexts {
        context := Some(mPendingCallContexts[requestId]);
      }
      mPendingCallContexts := mPendingCallContexts - {requestId};
    }

    /** A response goes to the pending context of its id, which it takes out; anything else is ignored. */
    method OnReceiveData(data: Bytes) returns (receiver: Option<ConsumerCallContext>, completed: Option<Callback>)
      requires Valid()
      modifies `mPendingCallContexts
      modifies mPendingCallContexts.Values`mCallState, mPendingCallContexts.Values`mOutputParameters
      ensures Valid()
      ensures forall c :: c in old(mPendingCallContexts).Values && Some(c) != receiver ==>
        c.mCallState == old(c.mCallState) && c.mOutputParameters == old(c.mOutputParameters)
      ensures receiver == match CallContent(data)
        case None => None
        case Some((h, payload)) =>
          if h.messageType == Response && h.requestId in old(mPendingCallContexts) then
            Some(old(mPendingCallContexts)[h.requestId]) else None
      ensures receiver.None? ==> completed == None && mPendingCallContexts == old(mPendingCallContexts)
      ensures receiver.Some? ==>
        var context := receiver.value;
        && mPendingCallContexts == old(mPendingCallContexts) - {context.mRequestId}
        && (old(context.mCallState) == Called ==>
              && context.mCallState == Returned && context.mOutputParameters == Some(CallContent(data).value.1)
              && completed == context.mCallback)
        && (old(context.mCallState) != Called ==>
              context.mCallState == old(context.mCallState)
                && context.mOutputParameters == old(context.mOutputParameters) && completed == None)
    {
      hide CallContent;
      receiver, completed := None, None;
      var content := UnpackCall(data);
      if content.Some? {
        var (header, payload) := content.value;
        if header.messageType == Response {
          receiver := PopCallContext(header.requestId);
          if receiver.Some? {
            assert receiver.value in old(mPendingCallContexts).Values;
            var accepted;
            accepted, completed := receiver.value.OnReturn(payload);
          } else {
            assert mPendingCallContexts == old(mPendingCallContexts);
          }
        }
      }
    }
  }

  /** What a consumer reads from the response to a request: for one that asks for a response, the output
      that the callback serialized, under the id of the request, or that no callback is registered; for
      anything else, and when the callback serialized nothing, there is none. */
  ghost predicate IsAnswer(request: Bytes, callback: Option<Bytes -> Option<Bytes>>, response: Option<Bytes>) {
    match CallContent(request)
    case None => response.None?
    case Some((h, input)) =>
      if h.messageType != Request then response.None?
      else if callback.None? then Reads(response, CallHeader(h.requestId, Response, NoCallbackRegistered), [])
      else if callback.value(input).None? then response.None?
      else Reads(response, CallHeader(h.requestId, Response, NoError), callback.value(input).value)
  }

  ghost predicate Reads(packet: Option<Bytes>, h: CallHeader, payload: Bytes) {
    packet.Some? && CallContent(packet.value) == Some((h, payload))
  }

  /** A method provided: its callback gives the output it serialized, if it did. */
  class DoProvidedMethod {
    var mCallback: Option<Bytes -> Option<Bytes>>

    constructor ()
      ensures mCallback == None
    {
      mCallback := None;
    }

    method SetCallback(callback: Option<Bytes -> Option<Bytes>>)
      modifies this
      ensures mCallback == callback
    {
      mCallback := callback;
    }

    /** The callback runs on the input of a request of either kind; only one that asks for a
        response is answered. */
    method OnReceiveData(request: Bytes) returns (calledWith: Option<Bytes>, response: Option<Bytes>)
      ensures calledWith == match CallContent(request)
        case None => None
        case Some((h, input)) =>
          if mCallback.Some? && (h.messageType == Request || h.messageType == RequestNoReturn) then Some(input)
            else None
      ensures var output := if calledWith.Some? then mCallback.value(calledWith.value) else None;
        var answer := AnswerTo(request, mCallback.Some?, output);
        response == if answer.Some? then
          Some(CallPacket(CallHeader(answer.value.id, Response, answer.value.code), answer.value.output)) else None
      ensures IsAnswer(request, mCallback, response)
    {
      ContentFits(request);
      AnswersRead(request);
      hide CallContent, CallPacket, FitsBits;
      calledWith, response := None, None;
      var content := UnpackCall(request);
      if content.Some? {
        var (header, inputArguments) := content.value;
        if header.messageType == Request {
          if mCallback.Some? {
            calledWith := Some(inputArguments);
            var output := mCallback.value(inputArguments);
            if output.Some? {
              var packet := PackCall(CallHeader(header.requestId, Response, NoError), output.value);
              response := Some(packet);
            }
          } else {
            var packet := PackCall(CallHeader(header.requestId, Response, NoCallbackRegistered), []);
            response := Some(packet);
          }
        } else if header.messageType == RequestNoReturn {
          if mCallback.Some? {
            calledWith := Some(inputArguments);
          }
        }
      }
    }
  }

  /** A response packet with the id of a request is read back. */
  lemma AnswersRead(request: Bytes)
    ensures CallContent(request).Some? ==>
      forall code, output :: code in {NoError, NoCallbackRegistered} ==>
        var h := CallHeader(CallContent(request).value.0.requestId, Response, code);
        CallContent(CallPacket(h, output)) == Some((h, output))
  {
    ContentFits(request);
    hide CallContent, CallPacket, FitsBits;
    if CallContent(request).Some? {
      forall code, output | code in {NoError, NoCallbackRegistered}
        ensures var h := CallHeader(CallContent(request).value.0.requestId, Response, code);
          CallContent(CallPacket(h, output)) == Some((h, output))
      {
        CallRoundTrip(CallHeader(CallContent(request).value.0.requestId, Response, code), output);
      }
    }
  }

  /** An id read from a packet fits the header it is answered with. */
  lemma ContentFits(packet: Bytes)
    ensures CallContent(packet).Some? ==> FitsBits(CallContent(packet).value.0.requestId, true, 64)
  {
    if CallContent(packet).Some? {
      var bits := Flatten(packet[2..10]);
      SignedFromBitsRange(bits);
    }
  }
}

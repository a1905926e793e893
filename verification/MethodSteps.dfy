/** The objects at the two ends of a method call make the steps of Calls: each method, run as a whole,
    takes what the system is to what its steps make of it. */
module MethodSteps {
  import opened Bits
  import opened Wrappers
  import opened WireFormat
  import opened Packets
  import opened Calls
  import opened Methods

  /** The steps, each enabled in turn, lead from one system to another. */
  ghost predicate Leads(s: System, steps: seq<Step>, t: System)
    decreases |steps|
  {
    if steps == [] then s == t else Enabled(s, steps[0]) && Leads(Next(s, steps[0]), steps[1..], t)
  }

  lemma LeadsOn(s: System, step: Step, rest: seq<Step>, t: System)
    requires Enabled(s, step) && Leads(Next(s, step), rest, t)
    ensures Leads(s, [step] + rest, t)
  {
    hide Enabled, Next;
    assert ([step] + rest)[1..] == rest;
  }

  lemma LeadsOnce(s: System, step: Step)
    requires Enabled(s, step)
    ensures Leads(s, [step], Next(s, step))
  {
    hide Enabled, Next;
    assert [step][1..] == [];
  }

  /** The context object is what the system has under its id. */
  ghost predicate Shows(context: ConsumerCallContext, s: System)
    reads context
  {
    && Alive(s, context.mRequestId)
    && var c := s.contexts[context.mRequestId];
       c.state == context.mCallState && c.callback == context.mCallback && c.output == context.mOutputParameters
  }

  /** The pending contexts of the object are those of the system. */
  ghost predicate ShowsPending(m: DoConsumedMethod, s: System)
    reads m, m.mPendingCallContexts.Values
  {
    && m.Valid() && m.mNextRequestId == s.nextId && m.mPendingCallContexts.Keys == s.pending
    && forall id :: id in m.mPendingCallContexts ==> Shows(m.mPendingCallContexts[id], s)
  }

  lemma CreateSteps(s: System) returns (t: System)
    requires FitsBits(s.nextId, true, 64)
    ensures Leads(s, [Create], t)
    ensures t ==
      s.(contexts := s.contexts[s.nextId := Fresh()], nextId := s.nextId + 1, pending := s.pending + {s.nextId})
  {
    hide FitsBits;
    t := Next(s, Create);
    LeadsOnce(s, Create);
  }

  /** Creating a context is a Create step. */
  method CreateCallContext(m: DoConsumedMethod, ghost s: System) returns (context: ConsumerCallContext, ghost t: System)
    requires ShowsPending(m, s) && FitsBits(s.nextId, true, 64)
    modifies m
    ensures ShowsPending(m, t) && Shows(context, t) && Leads(s, [Create], t)
  {
    hide FitsBits, Leads;
    context := m.CreateCallContext();
    t := CreateSteps(s);
    assert forall id :: id in m.mPendingCallContexts && id != s.nextId ==>
      m.mPendingCallContexts[id] in old(m.mPendingCallContexts).Values && t.contexts[id] == s.contexts[id];
    assert m.mPendingCallContexts.Keys == s.pending + {s.nextId};
  }

  /** The steps of a call: the swap, the store, dropping a one-way call, and sending. */
  function CallSteps(id: int, callback: Option<Callback>, input: Bytes): seq<Step> {
    [CallSwap(id, callback)] + ([CallStore(id)] + ([CallDrop(id)] + [CallSend(id, input)]))
  }

  lemma CallLeads(s: System, id: int, callback: Option<Callback>, input: Bytes) returns (t: System)
    requires Alive(s, id) && s.contexts[id].state.Initial?
    ensures Leads(s, CallSteps(id, callback, input), t)
    ensures t == With(s, id, s.contexts[id].(state := Called, calling := Sent, callback := callback, input := input)).(
      pending := if callback.None? then s.pending - {id} else s.pending,
      requests := s.requests + {CallPacket(RequestHeader(id, callback), input)})
  {
    hide CallPacket, Leads;
    var a := Next(s, CallSwap(id, callback));
    var b := Next(a, CallStore(id));
    var c := Next(b, CallDrop(id));
    t := Next(c, CallSend(id, input));
    LeadsOnce(c, CallSend(id, input));
    LeadsOn(b, CallDrop(id), [CallSend(id, input)], t);
    LeadsOn(a, CallStore(id), [CallDrop(id)] + [CallSend(id, input)], t);
    LeadsOn(s, CallSwap(id, callback), [CallStore(id)] + ([CallDrop(id)] + [CallSend(id, input)]), t);
  }

  /** An accepted call sends the request and, if it is a one-way call, is not pending any more; one
      that is refused makes a swap that changes nothing. */
  method CallAsync(m: DoConsumedMethod, context: ConsumerCallContext, callback: Option<Callback>, ghost s: System)
    returns (accepted: bool, request: Option<Bytes>, ghost t: System)
    requires ShowsPending(m, s) && Shows(context, s) && FitsBits(context.mRequestId, true, 64)
    requires context.mRequestId in m.mPendingCallContexts ==> m.mPendingCallContexts[context.mRequestId] == context
    modifies m, context
    ensures ShowsPending(m, t) && Shows(context, t)
    ensures accepted == old(context.mCallState).Initial? == request.Some?
    ensures Leads(s, if accepted then CallSteps(context.mRequestId, callback, context.mInputParameters)
      else [CallSwap(context.mRequestId, callback)], t)
    ensures accepted ==> t.requests == s.requests + {request.value}
  {
    hide FitsBits, CallPacket, Leads;
    var isOneWayCall;
    accepted, isOneWayCall := context.CallAsync(callback);
    request := None;
    if accepted {
      t := CallLeads(s, context.mRequestId, callback, context.mInputParameters);
      var packet := m.OnCall(context, isOneWayCall);
      request := Some(packet);
    } else {
      t := s;
      LeadsOnce(s, CallSwap(context.mRequestId, callback));
    }
  }

  /** The steps of a delivery: the pending entry is taken out, the state is swapped, and if the call
      was still waiting the output is stored and the callback run. */
  function DeliverySteps(response: Bytes, id: Option<int>, called: bool): seq<Step> {
    [Receive(response)] + if id.None? then [] else
      [ReturnSwap(id.value)] + if called then [ReturnStore(id.value)] + [ReturnRun(id.value)] else []
  }

  lemma ReturnLeads(s: System, id: int) returns (t: System)
    requires Alive(s, id) && s.contexts[id].returning.Popped?
    ensures var c := s.contexts[id];
      var r := ReturnSwap(id);
      if c.state.Called? then
        Leads(s, [r] + ([ReturnStore(id)] + [ReturnRun(id)]), t)
        && t == With(s, id, Ran(c.(state := Returned, output := Some(c.returning.payload), returning := ReturnedRun)))
      else Leads(s, [r] + [], t) && t == With(s, id, c.(returning := Lost))
  {
    hide Leads;
    var a := Next(s, ReturnSwap(id));
    if s.contexts[id].state.Called? {
      var b := Next(a, ReturnStore(id));
      t := Next(b, ReturnRun(id));
      LeadsOnce(b, ReturnRun(id));
      LeadsOn(a, ReturnStore(id), [ReturnRun(id)], t);
      LeadsOn(s, ReturnSwap(id), [ReturnStore(id)] + [ReturnRun(id)], t);
    } else {
      t := a;
      LeadsOnce(s, ReturnSwap(id));
      assert [ReturnSwap(id)] + [] == [ReturnSwap(id)];
    }
  }

  /** Delivering a response to a pending call that waits completes it once, with the payload. */
  method OnReceiveData(m: DoConsumedMethod, data: Bytes, ghost s: System)
    returns (receiver: Option<ConsumerCallContext>, completed: Option<Callback>, ghost t: System)
    requires ShowsPending(m, s) && data in s.responses
    modifies m, m.mPendingCallContexts.Values
    ensures ShowsPending(m, t)
    ensures receiver.Some? ==> Shows(receiver.value, t) && receiver.value.mRequestId in s.contexts
    ensures receiver.None? ==> Leads(s, DeliverySteps(data, None, false), t)
    ensures receiver.Some? ==>
      var id := receiver.value.mRequestId;
      var called := s.contexts[id].state.Called?;
      && Leads(s, DeliverySteps(data, Some(id), called), t)
      && t.contexts[id].completions == s.contexts[id].completions + if called then 1 else 0
  {
    hide CallContent, Leads;
    receiver, completed := m.OnReceiveData(data);
    ghost var a := Next(s, Receive(data));
    LeadsOnce(s, Receive(data));
    if receiver.Some? {
      t := ReturnLeads(a, receiver.value.mRequestId);
      LeadsOn(s, Receive(data), [ReturnSwap(receiver.value.mRequestId)] +
        if a.contexts[receiver.value.mRequestId].state.Called?
        then [ReturnStore(receiver.value.mRequestId)] + [ReturnRun(receiver.value.mRequestId)] else [], t);
    } else {
      t := a;
      assert [Receive(data)] + [] == [Receive(data)];
    }
  }

  /** A timeout swaps the state of a call that waits, and runs the callback; else it changes nothing. */
  method OnTimeout(context: ConsumerCallContext, ghost s: System)
    returns (accepted: bool, completed: Option<Callback>, ghost t: System)
    requires Shows(context, s)
    modifies context
    ensures Shows(context, t) && accepted == old(context.mCallState).Called?
    ensures Leads(s, [TimeoutSwap(context.mRequestId)] +
      if accepted then [RunTimedOut(context.mRequestId)] else [], t)
    ensures accepted ==> t.contexts[context.mRequestId].completions == s.contexts[context.mRequestId].completions + 1
  {
    hide Leads;
    accepted, completed := context.OnTimeout();
    var id := context.mRequestId;
    ghost var a := Next(s, TimeoutSwap(id));
    if accepted {
      t := Next(a, RunTimedOut(id));
      LeadsOnce(a, RunTimedOut(id));
      LeadsOn(s, TimeoutSwap(id), [RunTimedOut(id)], t);
    } else {
      t := a;
      LeadsOnce(s, TimeoutSwap(id));
      assert [TimeoutSwap(id)] + [] == [TimeoutSwap(id)];
    }
  }

  /** What the provider's callback serializes for a request, if it is called. */
  function OutputFor(p: DoProvidedMethod, request: Bytes): Option<Bytes>
    reads p
  {
    match CallContent(request)
    case None => None
    case Some((h, input)) =>
      if p.mCallback.Some? && (h.messageType == Request || h.messageType == RequestNoReturn)
      then p.mCallback.value(input) else None
  }

  /** A request handled by the provider adds the response it sends, if any, to those in flight. */
  method Provide(p: DoProvidedMethod, request: Bytes, ghost s: System)
    returns (response: Option<Bytes>, ghost t: System)
    requires request in s.requests
    ensures response == match AnswerTo(request, p.mCallback.Some?, OutputFor(p, request))
      case None => None
      case Some(a) => Some(CallPacket(CallHeader(a.id, Response, a.code), a.output))
    ensures Leads(s, [Step.Provide(request, p.mCallback.Some?, OutputFor(p, request))], t)
    ensures t.responses == s.responses + if response.Some? then {response.value} else {}
  {
    hide CallContent, CallPacket, Leads;
    var calledWith;
    calledWith, response := p.OnReceiveData(request);
    ghost var step := Step.Provide(request, p.mCallback.Some?, OutputFor(p, request));
    t := Next(s, step);
    LeadsOnce(s, step);
  }
}

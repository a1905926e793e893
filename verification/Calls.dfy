/** Remote method calls between one consumer and a provider of a method: the network may reorder,
    drop and duplicate packets, and the threads of the consumer interleave between the single
    atomic steps of a call. */
module Calls {
  import opened Bits
  import opened Wrappers
  import opened WireFormat
  import opened Packets

  type Bytes = seq<Octet>
  type Callback = nat

  datatype CallState = Initial | Called | Returned | Discarded

  /** Where CallAsync is: after the swap it stores the callback, drops a one-way call from the
      pending ones, and sends the request. */
  datatype CallPc = NotCalled | Swapped(callback: Option<Callback>) | Stored | Dropped | Sent

  /** Where the thread that received a response is: after taking the pending entry it swaps the
      state, stores the output and runs the callback. */
  datatype ReturnPc = NoResponse | Popped(payload: Bytes) | Won(payload: Bytes) | OutputStored | ReturnedRun | Lost

  datatype TimeoutPc = NoTimeout | TimedOut | TimeoutRun

  /** A call context: its atomic state, callback and output, where its threads are, the input bytes
      sent, and how often a callback ran and how often a null one was run. */
  datatype Context = Context(
    state: CallState, callback: Option<Callback>, output: Option<Bytes>, alive: bool,
    calling: CallPc, returning: ReturnPc, timeout: TimeoutPc,
    input: Bytes, completions: nat, nulls: nat)

  /** An answer made by the provider: for which request and input, and what was returned. */
  datatype Answer = Answer(id: int, input: Bytes, code: ReturnCode, output: Bytes)

  /** Packets once sent may be delivered any number of times. */
  datatype System = System(
    contexts: map<int, Context>, nextId: int, pending: set<int>,
    requests: set<Bytes>, responses: set<Bytes>, answers: set<Answer>)

  datatype Step =
    | Create
    | Destroy(id: int)
    | CallSwap(id: int, callback: Option<Callback>)
    | CallStore(id: int)
    | CallDrop(id: int)
    | CallSend(id: int, input: Bytes)
    | Provide(request: Bytes, hasCallback: bool, output: Option<Bytes>)
    | Receive(response: Bytes)
    | ReturnSwap(id: int)
    | ReturnStore(id: int)
    | ReturnRun(id: int)
    | TimeoutSwap(id: int)
    | RunTimedOut(id: int)

  function Fresh(): Context {
    Context(Initial, None, None, true, NotCalled, NoResponse, NoTimeout, [], 0, 0)
  }

  predicate Alive(s: System, id: int) {
    id in s.contexts && s.contexts[id].alive
  }

  /** Ids are 64 bits wide. */
  const FIRST_ID := 1

  ghost predicate Enabled(s: System, step: Step) {
    match step
    case Create => FitsBits(s.nextId, true, 64)
    case Destroy(id) => Alive(s, id) && (s.contexts[id].calling.NotCalled? || s.contexts[id].calling.Sent?)
      && !s.contexts[id].returning.Popped? && !s.contexts[id].returning.Won? && !s.contexts[id].returning.OutputStored?
      && !s.contexts[id].timeout.TimedOut?
    case CallSwap(id, _) => Alive(s, id)
    case CallStore(id) => id in s.contexts && s.contexts[id].calling.Swapped?
    case CallDrop(id) => id in s.contexts && s.contexts[id].calling.Stored?
    case CallSend(id, _) => id in s.contexts && s.contexts[id].calling.Dropped?
    case Provide(request, _, _) => request in s.requests
    case Receive(response) => response in s.responses
    case ReturnSwap(id) => id in s.contexts && s.contexts[id].returning.Popped?
    case ReturnStore(id) => id in s.contexts && s.contexts[id].returning.Won?
    case ReturnRun(id) => id in s.contexts && s.contexts[id].returning.OutputStored?
    case TimeoutSwap(id) => Alive(s, id)
    case RunTimedOut(id) => id in s.contexts && s.contexts[id].timeout.TimedOut?
  }

  function RequestHeader(id: int, callback: Option<Callback>): CallHeader {
    CallHeader(id, if callback.Some? then Request else RequestNoReturn, NoError)
  }

  function Ran(c: Context): Context {
    c.(completions := c.completions + 1, nulls := c.nulls + if c.callback.None? then 1 else 0)
  }

  function With(s: System, id: int, c: Context): System {
    s.(contexts := s.contexts[id := c])
  }

  /** The answer the provider makes to a request packet, given what its callback serialized. */
  function AnswerTo(request: Bytes, hasCallback: bool, output: Option<Bytes>): Option<Answer> {
    match CallContent(request)
    case None => None
    case Some((h, input)) =>
      if !h.messageType.Request? then None
      else if !hasCallback then Some(Answer(h.requestId, input, NoCallbackRegistered, []))
      else if output.Some? then Some(Answer(h.requestId, input, NoError, output.value))
      else None
  }

  /** What the provider makes of a request packet. */
  function Answered(s: System, request: Bytes, hasCallback: bool, output: Option<Bytes>): System {
    var a := AnswerTo(request, hasCallback, output);
    if a.Some? then Respond(s, a.value) else s
  }

  function Respond(s: System, a: Answer): System {
    s.(responses := s.responses + {CallPacket(CallHeader(a.id, Response, a.code), a.output)},
      answers := s.answers + {a})
  }

  /** What the consumer makes of a response packet: the pending entry is taken out, and the context
      goes on with the payload if it is still alive. */
  function Received(s: System, response: Bytes): System {
    match CallContent(response)
    case None => s
    case Some((h, payload)) =>
      if !h.messageType.Response? || h.requestId !in s.pending then s
      else
        var t := s.(pending := s.pending - {h.requestId});
        if Alive(s, h.requestId) then With(t, h.requestId, s.contexts[h.requestId].(returning := Popped(payload)))
          else t
  }

  function Next(s: System, step: Step): System
    requires Enabled(s, step)
  {
    match step
    case Create => With(s, s.nextId, Fresh()).(nextId := s.nextId + 1, pending := s.pending + {s.nextId})
    case Destroy(id) => With(s, id, s.contexts[id].(alive := false)).(pending := s.pending - {id})
    case CallSwap(id, callback) =>
      if s.contexts[id].state.Initial? then With(s, id,
        s.contexts[id].(state := Called, calling := Swapped(callback))) else s
    case CallStore(id) => With(s, id, s.contexts[id].(callback := s.contexts[id].calling.callback, calling := Stored))
    case CallDrop(id) =>
      With(s, id, s.contexts[id].(calling := Dropped)).(
        pending := if s.contexts[id].callback.None? then s.pending - {id} else s.pending)
    case CallSend(id, input) =>
      With(s, id, s.contexts[id].(calling := Sent, input := input)).(
        requests := s.requests + {CallPacket(RequestHeader(id, s.contexts[id].callback), input)})
    case Provide(request, hasCallback, output) => Answered(s, request, hasCallback, output)
    case Receive(response) => Received(s, response)
    case ReturnSwap(id) =>
      var c := s.contexts[id];
      With(s, id, if c.state.Called? then c.(state := Returned, returning := Won(c.returning.payload))
        else c.(returning := Lost))
    case ReturnStore(id) =>
      var c := s.contexts[id];
      With(s, id, c.(output := Some(c.returning.payload), returning := OutputStored))
    case ReturnRun(id) => With(s, id, Ran(s.contexts[id].(returning := ReturnedRun)))
    case TimeoutSwap(id) =>
      var c := s.contexts[id];
      if c.state.Called? then With(s, id, c.(state := Discarded, timeout := TimedOut)) else s
    case RunTimedOut(id) => With(s, id, Ran(s.contexts[id].(timeout := TimeoutRun)))
  }

  function Start(): System {
    System(map[], FIRST_ID, {}, {}, {}, {})
  }

  ghost predicate Reachable(s: System, steps: seq<Step>)
    decreases |steps|
  {
    if steps == [] then s == Start() else
      var n := |steps| - 1;
      exists t :: Reachable(t, steps[..n]) && Enabled(t, steps[n]) && s == Next(t, steps[n])
  }

  // ----- The invariant -----

  /** The threads of a context and its state agree; a callback ran once for each that finished. */
  predicate Coherent(c: Context) {
    && (c.state.Initial? <==> c.calling.NotCalled?)
    && (c.state.Returned? <==> c.returning.Won? || c.returning.OutputStored? || c.returning.ReturnedRun?)
    && (c.state.Discarded? <==> !c.timeout.NoTimeout?)
    && c.completions == (if c.returning.ReturnedRun? then 1 else 0) + (if c.timeout.TimeoutRun? then 1 else 0)
    && (!c.returning.NoResponse? ==> TwoWay(c))
    && (c.output.Some? <==> c.returning.OutputStored? || c.returning.ReturnedRun?)
    && (c.nulls > 0 ==> c.timeout.TimeoutRun?)
  }

  /** A call whose request was sent and asks for a response. */
  predicate TwoWay(c: Context) {
    c.calling.Sent? && c.callback.Some?
  }

  /** The payload that the context received was returned for its own id and input. */
  ghost predicate Own(s: System, id: int, c: Context) {
    && (c.returning.Popped? || c.returning.Won? ==> MadeFor(s.answers, id, c.input, c.returning.payload))
    && (c.output.Some? ==> MadeFor(s.answers, id, c.input, c.output.value))
  }

  ghost predicate MadeFor(answers: set<Answer>, id: int, input: Bytes, output: Bytes) {
    exists code :: Answer(id, input, code, output) in answers
  }

  /** A pending call has no response yet, and is not a one-way call that was sent. */
  predicate PendingOk(c: Context) {
    c.returning.NoResponse? && !(c.callback.None? && (c.calling.Dropped? || c.calling.Sent?))
  }

  ghost predicate RequestOk(s: System, request: Bytes) {
    exists id ::
      && id in s.contexts && s.contexts[id].calling.Sent? && FitsBits(id, true, 64)
      && request == CallPacket(RequestHeader(id, s.contexts[id].callback), s.contexts[id].input)
  }

  /** Every response in flight is an answer to the request of a two-way call. */
  ghost predicate ResponseOk(s: System, response: Bytes) {
    exists a ::
      && a in s.answers && a.id in s.contexts && TwoWay(s.contexts[a.id]) && a.input == s.contexts[a.id].input
      && ValidHeader(CallHeader(a.id, Response, a.code))
        && response == CallPacket(CallHeader(a.id, Response, a.code), a.output)
  }

  ghost predicate Contexts(s: System) {
    && (forall id :: id in s.contexts ==> FIRST_ID <= id < s.nextId && FitsBits(id, true, 64))
    && (forall id :: id in s.contexts ==> Coherent(s.contexts[id]) && Own(s, id, s.contexts[id]))
    && (forall id :: id in s.pending ==> id in s.contexts && PendingOk(s.contexts[id]))
  }

  /** An answer was made for a request in flight; without a callback it returns nothing. */
  predicate AnswerOk(s: System, a: Answer) {
    && CallPacket(CallHeader(a.id, Request, NoError), a.input) in s.requests
    && (a.code == NoCallbackRegistered ==> a.output == [])
  }

  ghost predicate Network(s: System) {
    && (forall p :: p in s.requests ==> RequestOk(s, p))
    && (forall p :: p in s.responses ==> ResponseOk(s, p))
  }

  ghost predicate Invariant(s: System) {
    Contexts(s) && Network(s)
  }

  /** What was sent for a context stays as it was. */
  predicate SentSame(was: Context, c: Context) {
    was.calling.Sent? ==> c.calling.Sent? && c.callback == was.callback && c.input == was.input
  }

  ghost predicate Answers(s: System) {
    s.nextId >= FIRST_ID && forall a :: a in s.answers ==> AnswerOk(s, a)
  }
}

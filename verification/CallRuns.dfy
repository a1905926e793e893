/** The invariant of remote method calls holds in every run, and what follows from it: each
    completion runs at most once, with an answer made for its own call. */
module CallRuns {
  import opened Bits
  import opened Wrappers
  import opened WireFormat
  import opened Packets
  import opened Calls

  // ----- It is preserved -----

  lemma ContextsWith(s: System, id: int, c: Context)
    requires Contexts(s) && id in s.contexts && Coherent(c) && Own(s, id, c) && (id in s.pending ==> PendingOk(c))
    ensures Contexts(With(s, id, c))
  {
    hide Coherent, PendingOk, FitsBits, MadeFor;
  }

  lemma NetworkWith(s: System, id: int, c: Context)
    requires Network(s) && id in s.contexts && SentSame(s.contexts[id], c)
    ensures Network(With(s, id, c))
  {
    hide FitsBits, CallPacket, ValidHeader;
    var t := With(s, id, c);
    forall p | p in t.requests ensures RequestOk(t, p) {
      assert RequestOk(s, p);
    }
    forall p | p in t.responses ensures ResponseOk(t, p) {
      assert ResponseOk(s, p);
    }
  }

  lemma PendingLess(s: System, pending: set<int>)
    requires Invariant(s) && pending <= s.pending
    ensures Invariant(s.(pending := pending))
  {
    hide FitsBits, CallPacket, ValidHeader, Coherent;
    var t := s.(pending := pending);
    assert forall p :: RequestOk(s, p) ==> RequestOk(t, p);
    assert forall p :: ResponseOk(s, p) ==> ResponseOk(t, p);
    assert forall id, c :: Own(s, id, c) ==> Own(t, id, c);
  }

  lemma InvariantWith(s: System, id: int, c: Context)
    requires Invariant(s) && id in s.contexts && Coherent(c) && Own(s, id, c) && (id in s.pending ==> PendingOk(c))
      && SentSame(s.contexts[id], c)
    ensures Invariant(With(s, id, c))
  {
    hide Coherent, PendingOk, SentSame, Own, Network, Contexts;
    ContextsWith(s, id, c);
    NetworkWith(s, id, c);
  }

  lemma LocalStep(s: System, step: Step)
    requires Invariant(s) && Enabled(s, step)
    requires step.CallSwap? || step.CallStore? || step.ReturnSwap? || step.ReturnStore? || step.ReturnRun?
      || step.TimeoutSwap? || step.RunTimedOut?
    ensures Invariant(Next(s, step))
  {
    hide FitsBits, CallPacket, CallContent, ValidHeader;
    var id := step.id;
    var c := s.contexts[id];
    assert Coherent(c) && Own(s, id, c) && (id in s.pending ==> PendingOk(c));
    var n := Next(s, step);
    assert n == s || n == With(s, id, n.contexts[id]);
    if n != s {
      var d := n.contexts[id];
      assert Coherent(d) && Own(s, id, d) && (id in s.pending ==> PendingOk(d)) && SentSame(c, d);
      hide Invariant, Enabled, Next;
      InvariantWith(s, id, d);
    }
  }

  lemma DestroyStep(s: System, id: int)
    requires Invariant(s) && Enabled(s, Destroy(id))
    ensures Invariant(Next(s, Destroy(id)))
  {
    hide FitsBits, CallPacket, CallContent, ValidHeader;
    var c := s.contexts[id].(alive := false);
    assert Coherent(s.contexts[id]) && Own(s, id, s.contexts[id]);
    assert Coherent(c) && Own(s, id, c) && SentSame(s.contexts[id], c);
    var t := s.(pending := s.pending - {id});
    assert Next(s, Destroy(id)) == With(t, id, c);
    assert Own(t, id, c);
    hide Invariant, Coherent, Own, SentSame, PendingOk;
    PendingLess(s, s.pending - {id});
    InvariantWith(t, id, c);
  }

  lemma DropStep(s: System, id: int)
    requires Invariant(s) && Enabled(s, CallDrop(id))
    ensures Invariant(Next(s, CallDrop(id)))
  {
    hide FitsBits, CallPacket, CallContent, ValidHeader;
    var was := s.contexts[id];
    var c := was.(calling := Dropped);
    assert Coherent(was) && Own(s, id, was) && (id in s.pending ==> PendingOk(was));
    assert Coherent(c) && Own(s, id, c) && SentSame(was, c);
    var t := s.(pending := if was.callback.None? then s.pending - {id} else s.pending);
    assert Next(s, CallDrop(id)) == With(t, id, c);
    assert Own(t, id, c) && (id in t.pending ==> PendingOk(c));
    hide Invariant, Coherent, Own, SentSame, PendingOk;
    PendingLess(s, t.pending);
    InvariantWith(t, id, c);
  }

  lemma SendStep(s: System, id: int, input: Bytes)
    requires Invariant(s) && Enabled(s, CallSend(id, input))
    ensures Invariant(Next(s, CallSend(id, input)))
  {
    hide FitsBits, CallPacket, CallContent, ValidHeader;
    var was := s.contexts[id];
    var c := was.(calling := Sent, input := input);
    assert Coherent(was) && (id in s.pending ==> PendingOk(was)) && FitsBits(id, true, 64);
    assert Coherent(c) && Own(s, id, c) && SentSame(was, c) && (id in s.pending ==> PendingOk(c));
    var p := CallPacket(RequestHeader(id, was.callback), input);
    var t := With(s, id, c);
    InvariantWith(s, id, c);
    assert Next(s, CallSend(id, input)) == t.(requests := s.requests + {p});
    hide Next, Coherent;
    var n := t.(requests := s.requests + {p});
    assert RequestOk(n, p) by { assert n.contexts[id] == c; }
    assert forall q :: RequestOk(t, q) ==> RequestOk(n, q);
    assert forall q :: ResponseOk(t, q) ==> ResponseOk(n, q);
    assert forall i, x :: Own(t, i, x) ==> Own(n, i, x);
  }

  lemma CreateStep(s: System)
    requires Invariant(s) && Enabled(s, Create) && FIRST_ID <= s.nextId
    ensures Invariant(Next(s, Create))
  {
    hide FitsBits, CallPacket, CallContent, ValidHeader;
    var n := Next(s, Create);
    assert s.nextId !in s.contexts;
    forall p | p in n.requests ensures RequestOk(n, p) {
      assert RequestOk(s, p);
    }
    forall p | p in n.responses ensures ResponseOk(n, p) {
      assert ResponseOk(s, p);
    }
    assert forall i, x :: Own(s, i, x) ==> Own(n, i, x);
  }

  lemma RespondStep(s: System, a: Answer)
    requires Invariant(s) && a.id in s.contexts && TwoWay(s.contexts[a.id]) && a.input == s.contexts[a.id].input
    requires ValidHeader(CallHeader(a.id, Response, a.code))
    ensures Invariant(Respond(s, a))
  {
    hide FitsBits, CallPacket, CallContent, ValidHeader;
    var n := Respond(s, a);
    hide Coherent, TwoWay;
    forall p | p in n.requests ensures RequestOk(n, p) {
      assert RequestOk(s, p);
    }
    forall p | p in n.responses ensures ResponseOk(n, p) {
      if p in s.responses {
        assert ResponseOk(s, p);
      }
    }
    forall id | id in n.contexts ensures Own(n, id, n.contexts[id]) {
      assert Own(s, id, s.contexts[id]);
      OwnMore(s, n, id, s.contexts[id]);
    }
  }

  lemma OwnMore(s: System, n: System, id: int, c: Context)
    requires Own(s, id, c) && s.answers <= n.answers
    ensures Own(n, id, c)
  {
  }

  lemma ProvideStep(s: System, request: Bytes, hasCallback: bool, output: Option<Bytes>)
    requires Invariant(s) && request in s.requests
    ensures Invariant(Answered(s, request, hasCallback, output))
  {
    hide FitsBits, CallPacket, CallContent;
    assert RequestOk(s, request);
    var id :| id in s.contexts && s.contexts[id].calling.Sent? && FitsBits(id, true, 64)
      && request == CallPacket(RequestHeader(id, s.contexts[id].callback), s.contexts[id].input);
    var c := s.contexts[id];
    CallRoundTrip(RequestHeader(id, c.callback), c.input);
    hide Invariant;
    if c.callback.Some? {
      if !hasCallback {
        RespondStep(s, Answer(id, c.input, NoCallbackRegistered, []));
      } else if output.Some? {
        RespondStep(s, Answer(id, c.input, NoError, output.value));
      }
    }
  }

  lemma ReceiveStep(s: System, response: Bytes)
    requires Invariant(s) && response in s.responses
    ensures Invariant(Received(s, response))
  {
    hide FitsBits, CallPacket, CallContent, ValidHeader;
    assert ResponseOk(s, response);
    var a :| a in s.answers && a.id in s.contexts && TwoWay(s.contexts[a.id]) && a.input == s.contexts[a.id].input
      && ValidHeader(CallHeader(a.id, Response, a.code))
        && response == CallPacket(CallHeader(a.id, Response, a.code), a.output);
    CallRoundTrip(CallHeader(a.id, Response, a.code), a.output);
    if a.id in s.pending {
      var was := s.contexts[a.id];
      assert Coherent(was) && PendingOk(was) && Own(s, a.id, was);
      var c := was.(returning := Popped(a.output));
      var t := s.(pending := s.pending - {a.id});
      assert MadeFor(s.answers, a.id, a.input, a.output);
      assert Coherent(c) && Own(t, a.id, c) && SentSame(was, c);
      hide Invariant, Coherent, Own, SentSame, PendingOk;
      PendingLess(s, t.pending);
      InvariantWith(t, a.id, c);
    }
  }

  // ----- Every reachable state -----

  lemma InvariantStep(s: System, step: Step)
    requires Invariant(s) && Enabled(s, step) && s.nextId >= FIRST_ID
    ensures Invariant(Next(s, step))
  {
    hide Invariant, FitsBits, CallPacket, CallContent;
    match step
    case Create => CreateStep(s);
    case Destroy(id) => DestroyStep(s, id);
    case CallDrop(id) => DropStep(s, id);
    case CallSend(id, input) => SendStep(s, id, input);
    case Provide(request, hasCallback, output) => ProvideStep(s, request, hasCallback, output);
    case Receive(response) => ReceiveStep(s, response);
    case _ => LocalStep(s, step);
  }

  lemma AnswersStep(s: System, step: Step)
    requires Answers(s) && Invariant(s) && Enabled(s, step)
    ensures Answers(Next(s, step))
  {
    hide FitsBits, CallPacket, CallContent;
    if step.Provide? {
      assert RequestOk(s, step.request);
      var id :| id in s.contexts && s.contexts[id].calling.Sent? && FitsBits(id, true, 64)
        && step.request == CallPacket(RequestHeader(id, s.contexts[id].callback), s.contexts[id].input);
      AnswerHeader(s, id);
    } else {
      hide Invariant;
    }
  }

  lemma AnswerHeader(s: System, id: int)
    requires id in s.contexts && FitsBits(id, true, 64)
    ensures var c := s.contexts[id];
      CallContent(CallPacket(RequestHeader(id, c.callback), c.input)) == Some((RequestHeader(id, c.callback), c.input))
  {
    hide CallPacket, CallContent, FitsBits;
    CallRoundTrip(RequestHeader(id, s.contexts[id].callback), s.contexts[id].input);
  }

  lemma {:induction false} InvariantReached(s: System, steps: seq<Step>)
    requires Reachable(s, steps)
    ensures Invariant(s) && Answers(s)
    decreases |steps|
  {
    if steps == [] {
      hide Next, Enabled, CallPacket;
    } else {
      var n := |steps| - 1;
      var t :| Reachable(t, steps[..n]) && Enabled(t, steps[n]) && s == Next(t, steps[n]);
      hide Reachable, Enabled, Next, Invariant;
      InvariantReached(t, steps[..n]);
      InvariantStep(t, steps[n]);
      AnswersStep(t, steps[n]);
    }
  }

  /** However responses and timeouts are reordered and duplicated, a callback runs at most once per
      context; once it ran the context is Returned or Discarded, and never both ways. */
  lemma AtMostOnce(s: System, steps: seq<Step>, id: int)
    requires Reachable(s, steps) && id in s.contexts
    ensures var c := s.contexts[id];
      && c.completions <= 1 && !(c.returning.ReturnedRun? && c.timeout.TimeoutRun?)
      && (c.completions == 1 ==> c.state.Returned? || c.state.Discarded?)
      && (c.state.Returned? && c.returning.ReturnedRun? ==> c.completions == 1)
      && (c.state.Discarded? && c.timeout.TimeoutRun? ==> c.completions == 1)
  {
    hide Reachable, Network, FitsBits;
    InvariantReached(s, steps);
    assert Coherent(s.contexts[id]);
  }

  /** A context that is Returned or Discarded stays so, with the output it has. */
  lemma FinalStays(s: System, steps: seq<Step>, step: Step, id: int)
    requires Reachable(s, steps) && Enabled(s, step) && id in s.contexts
    ensures var c, d := s.contexts[id], Next(s, step).contexts;
      && id in d
      && (c.state.Returned? || c.state.Discarded? ==> d[id].state == c.state)
      && (c.output.Some? ==> d[id].output == c.output)
  {
    hide Reachable, Network, FitsBits, CallContent, CallPacket, Own;
    InvariantReached(s, steps);
    assert Coherent(s.contexts[id]);
    assert Contexts(s);
    hide Invariant;
    if step.Receive? {
      assert forall i :: i in s.pending ==> PendingOk(s.contexts[i]);
    }
  }

  /** A returned output was made for a request with the context's own id and input bytes; if no
      callback was registered at the provider it is empty. */
  lemma RightAnswer(s: System, steps: seq<Step>, id: int)
    requires Reachable(s, steps) && id in s.contexts && s.contexts[id].output.Some?
    ensures var c := s.contexts[id];
      && c.state.Returned?
      && CallPacket(CallHeader(id, Request, NoError), c.input) in s.requests
      && exists code ::
        Answer(id, c.input, code, c.output.value) in s.answers
        && (code == NoCallbackRegistered ==> c.output.value == [])
  {
    hide Reachable, Network, FitsBits, CallPacket;
    InvariantReached(s, steps);
    var c := s.contexts[id];
    assert Coherent(c) && Own(s, id, c);
    var code :| Answer(id, c.input, code, c.output.value) in s.answers;
    assert AnswerOk(s, Answer(id, c.input, code, c.output.value));
  }

  /** Every response in flight carries the id of a two-way call whose request was sent. */
  lemma ResponsesAnswerTwoWayCalls(s: System, steps: seq<Step>, response: Bytes)
    requires Reachable(s, steps) && response in s.responses
    ensures CallContent(response).Some?
    ensures var (h, payload) := CallContent(response).value;
      && h.messageType == Response && h.requestId in s.contexts && TwoWay(s.contexts[h.requestId])
      && CallPacket(CallHeader(h.requestId, Request, NoError), s.contexts[h.requestId].input) in s.requests
      && Answer(h.requestId, s.contexts[h.requestId].input, h.returnCode, payload) in s.answers
  {
    hide Reachable, Contexts, FitsBits, CallPacket, CallContent, ValidHeader;
    InvariantReached(s, steps);
    assert ResponseOk(s, response);
    var a :| a in s.answers && a.id in s.contexts && TwoWay(s.contexts[a.id]) && a.input == s.contexts[a.id].input
      && ValidHeader(CallHeader(a.id, Response, a.code))
        && response == CallPacket(CallHeader(a.id, Response, a.code), a.output);
    CallRoundTrip(CallHeader(a.id, Response, a.code), a.output);
    assert AnswerOk(s, a);
  }

  /** The null completion of a one-way call is never run by a response: once its request is sent it
      is not pending, and no response in flight carries its id. A null completion was run only
      if the call timed out. */
  lemma NullOnlyOnTimeout(s: System, steps: seq<Step>, id: int)
    requires Reachable(s, steps) && id in s.contexts
    ensures s.contexts[id].nulls > 0 ==> s.contexts[id].timeout.TimeoutRun?
    ensures s.contexts[id].callback.None? && s.contexts[id].calling.Sent? ==>
      id !in s.pending && s.contexts[id].returning.NoResponse?
    ensures s.contexts[id].callback.None? ==>
      forall p :: p in s.responses ==> CallContent(p).Some? && CallContent(p).value.0.requestId != id
  {
    InvariantReached(s, steps);
    assert Coherent(s.contexts[id]);
    hide Reachable, Invariant, FitsBits, CallPacket, CallContent;
    if s.contexts[id].callback.None? {
      forall p | p in s.responses ensures CallContent(p).Some? && CallContent(p).value.0.requestId != id {
        ResponsesAnswerTwoWayCalls(s, steps, p);
      }
    }
  }

  /** A step runs a null callback exactly when it is the timeout of a call without callback. */
  lemma NullStep(s: System, steps: seq<Step>, step: Step, id: int)
    requires Reachable(s, steps) && Enabled(s, step) && id in s.contexts
    ensures id in Next(s, step).contexts
    ensures Next(s, step).contexts[id].nulls > s.contexts[id].nulls <==>
      step == RunTimedOut(id) && s.contexts[id].callback.None?
  {
    hide Reachable, Network, FitsBits, CallContent, CallPacket, Own;
    InvariantReached(s, steps);
    assert Coherent(s.contexts[id]);
  }

  /** In a run in which a call is never timed out its context is never discarded, and a null
      completion is never run. Nothing in the repository times a call out. */
  lemma NeverWithoutTimeout(s: System, steps: seq<Step>, id: int)
    requires Reachable(s, steps) && TimeoutSwap(id) !in steps && id in s.contexts
    ensures s.contexts[id].nulls == 0 && !s.contexts[id].state.Discarded?
  {
    hide Reachable, Network, FitsBits;
    InvariantReached(s, steps);
    NotTimedOut(s, steps, id);
    assert Coherent(s.contexts[id]);
  }

  lemma NotTimedOutStep(s: System, step: Step, id: int)
    requires Enabled(s, step) && step != TimeoutSwap(id)
    requires id in s.contexts ==> s.contexts[id].timeout.NoTimeout?
    ensures id in Next(s, step).contexts ==> Next(s, step).contexts[id].timeout.NoTimeout?
  {
    hide FitsBits, CallPacket, CallContent;
  }

  lemma {:induction false} NotTimedOut(s: System, steps: seq<Step>, id: int)
    requires Reachable(s, steps) && TimeoutSwap(id) !in steps && id in s.contexts
    ensures s.contexts[id].timeout.NoTimeout?
    decreases |steps|
  {
    if steps != [] {
      var n := |steps| - 1;
      var t :| Reachable(t, steps[..n]) && Enabled(t, steps[n]) && s == Next(t, steps[n]);
      assert steps[n] in steps;
      hide Reachable, Enabled, Next;
      if id in t.contexts { NotTimedOut(t, steps[..n], id); }
      NotTimedOutStep(t, steps[n], id);
    }
  }

  lemma ReachedMore(s: System, steps: seq<Step>, step: Step)
    requires Reachable(s, steps) && Enabled(s, step)
    ensures Reachable(Next(s, step), steps + [step])
  {
    hide Enabled, Next;
    assert (steps + [step])[..|steps|] == steps;
  }

  /** A call made with the first context created, without a callback. */
  function OneWay(calling: CallPc, pending: set<int>, requests: set<Bytes>): System {
    System(map[FIRST_ID := Fresh().(state := Called, calling := calling)], FIRST_ID + 1, pending, requests, {}, {})
  }

  lemma OneWayBegun() returns (steps: seq<Step>)
    ensures Reachable(OneWay(Swapped(None), {FIRST_ID}, {}), steps)
  {
    assert FitsBits(FIRST_ID, true, 64);
    hide FitsBits, CallPacket;
    assert Reachable(Start(), []);
    hide Reachable;
    ReachedMore(Start(), [], Create);
    var a := Next(Start(), Create);
    assert a == System(map[FIRST_ID := Fresh()], FIRST_ID + 1, {FIRST_ID}, {}, {}, {});
    ReachedMore(a, [] + [Create], CallSwap(FIRST_ID, None));
    steps := [] + [Create] + [CallSwap(FIRST_ID, None)];
    assert Next(a, CallSwap(FIRST_ID, None)) == OneWay(Swapped(None), {FIRST_ID}, {});
  }

  lemma OneWayDropped() returns (steps: seq<Step>)
    ensures Reachable(OneWay(Dropped, {}, {}), steps)
  {
    hide Reachable, FitsBits, CallPacket;
    steps := OneWayBegun();
    ReachedMore(OneWay(Swapped(None), {FIRST_ID}, {}), steps, CallStore(FIRST_ID));
    assert Next(OneWay(Swapped(None), {FIRST_ID}, {}), CallStore(FIRST_ID)) == OneWay(Stored, {FIRST_ID}, {});
    steps := steps + [CallStore(FIRST_ID)];
    ReachedMore(OneWay(Stored, {FIRST_ID}, {}), steps, CallDrop(FIRST_ID));
    assert Next(OneWay(Stored, {FIRST_ID}, {}), CallDrop(FIRST_ID)) == OneWay(Dropped, {}, {});
    steps := steps + [CallDrop(FIRST_ID)];
  }

  lemma OneWaySent(request: Bytes) returns (steps: seq<Step>)
    requires request == CallPacket(RequestHeader(FIRST_ID, None), [])
    ensures Reachable(OneWay(Sent, {}, {request}), steps)
  {
    hide Reachable, FitsBits, CallPacket;
    steps := OneWayDropped();
    ReachedMore(OneWay(Dropped, {}, {}), steps, CallSend(FIRST_ID, []));
    assert Next(OneWay(Dropped, {}, {}), CallSend(FIRST_ID, [])) == OneWay(Sent, {}, {request});
    steps := steps + [CallSend(FIRST_ID, [])];
  }

  /** Timing out is what it takes: a run that creates a context, makes a one-way call with it and times
      it out runs a null completion. */
  lemma OneWayTimeoutRunsNull() returns (s: System, steps: seq<Step>)
    ensures Reachable(s, steps) && FIRST_ID in s.contexts && s.contexts[FIRST_ID].callback.None?
    ensures s.contexts[FIRST_ID].nulls == 1 && s.contexts[FIRST_ID].completions == 1
  {
    hide Reachable, CallPacket;
    var request := CallPacket(RequestHeader(FIRST_ID, None), []);
    var called := OneWaySent(request);
    var a := OneWay(Sent, {}, {request});
    ReachedMore(a, called, TimeoutSwap(FIRST_ID));
    ReachedMore(Next(a, TimeoutSwap(FIRST_ID)), called + [TimeoutSwap(FIRST_ID)], RunTimedOut(FIRST_ID));
    s := Next(Next(a, TimeoutSwap(FIRST_ID)), RunTimedOut(FIRST_ID));
    steps := called + [TimeoutSwap(FIRST_ID)] + [RunTimedOut(FIRST_ID)];
  }

  /** Delivering the response, the thread that takes it swaps the state, stores the payload and runs the
      callback, once. */
  ghost predicate Delivers(s: System, response: Bytes, id: int, payload: Bytes) {
    && id in s.contexts && Enabled(s, Receive(response))
    && var a := Next(s, Receive(response));
    && Enabled(a, ReturnSwap(id))
    && var b := Next(a, ReturnSwap(id));
    && Enabled(b, ReturnStore(id))
    && var c := Next(b, ReturnStore(id));
    && Enabled(c, ReturnRun(id))
    && var d := Next(c, ReturnRun(id)).contexts;
    && id in d && d[id].state.Returned? && d[id].output == Some(payload)
    && d[id].completions == s.contexts[id].completions + 1
  }

  /** A response delivered to a pending call completes it, unless a timeout came first. */
  lemma DeliveryCompletes(s: System, steps: seq<Step>, response: Bytes, id: int, payload: Bytes, code: ReturnCode)
    requires Reachable(s, steps) && response in s.responses && id in s.pending && Alive(s, id)
    requires CallContent(response) == Some((CallHeader(id, Response, code), payload)) && s.contexts[id].state.Called?
    ensures Delivers(s, response, id, payload)
  {
    hide CallContent, Reachable;
  }

  /** The request of a two-way call sent is in flight. */
  lemma RequestIsSent(s: System, steps: seq<Step>, id: int)
    requires Reachable(s, steps) && id in s.contexts && TwoWay(s.contexts[id])
    ensures CallPacket(CallHeader(id, Request, NoError), s.contexts[id].input) in s.requests
    ensures FitsBits(id, true, 64)
  {
    hide CallPacket, FitsBits;
    SentReached(s, steps);
    InvariantReached(s, steps);
    hide Reachable, Network, Answers;
  }

  ghost predicate SentInFlight(s: System) {
    forall id :: id in s.contexts && s.contexts[id].calling.Sent? ==>
      CallPacket(RequestHeader(id, s.contexts[id].callback), s.contexts[id].input) in s.requests
  }

  lemma SentStep(s: System, step: Step)
    requires SentInFlight(s) && Enabled(s, step) && Contexts(s) && s.nextId >= FIRST_ID
    ensures SentInFlight(Next(s, step))
  {
    hide CallPacket, CallContent, FitsBits, Own, RequestHeader;
  }

  lemma {:induction false} SentReached(s: System, steps: seq<Step>)
    requires Reachable(s, steps)
    ensures SentInFlight(s)
    decreases |steps|
  {
    hide CallPacket;
    if steps != [] {
      var n := |steps| - 1;
      var t :| Reachable(t, steps[..n]) && Enabled(t, steps[n]) && s == Next(t, steps[n]);
      SentReached(t, steps[..n]);
      InvariantReached(t, steps[..n]);
      hide Reachable, Enabled, Next, SentInFlight, Contexts, Network;
      SentStep(t, steps[n]);
    }
  }

  /** A context stays pending until its response is taken, unless it is a one-way call about to be sent. */
  ghost predicate StaysPending(s: System) {
    forall id :: id in s.contexts && Awaits(s.contexts[id]) ==> id in s.pending
  }

  predicate Awaits(c: Context) {
    && c.alive && c.returning.NoResponse?
    && (c.callback.Some? || !(c.calling.Dropped? || c.calling.Sent?))
  }

  lemma StaysPendingStep(s: System, step: Step)
    requires StaysPending(s) && Enabled(s, step) && Contexts(s)
    ensures StaysPending(Next(s, step))
  {
    hide CallPacket, CallContent, FitsBits, Own, RequestHeader;
  }

  lemma {:induction false} StaysPendingReached(s: System, steps: seq<Step>)
    requires Reachable(s, steps)
    ensures StaysPending(s)
    decreases |steps|
  {
    if steps != [] {
      var n := |steps| - 1;
      var t :| Reachable(t, steps[..n]) && Enabled(t, steps[n]) && s == Next(t, steps[n]);
      StaysPendingReached(t, steps[..n]);
      InvariantReached(t, steps[..n]);
      hide Reachable, Enabled, Next, StaysPending, Contexts, Network;
      StaysPendingStep(t, steps[n]);
    }
  }

  /** What a request of a two-way call is answered with, by its callback or without one. */
  function AnswerMade(id: int, input: Bytes, hasCallback: bool, output: Bytes): Answer {
    Answer(id, input, if hasCallback then NoError else NoCallbackRegistered, if hasCallback then output else [])
  }

  function ResponseFor(a: Answer): Bytes {
    CallPacket(CallHeader(a.id, Response, a.code), a.output)
  }

  /** The provider's answer to a request is in flight afterwards, and is read as what was made. */
  lemma ProvideAnswers(s: System, id: int, input: Bytes, hasCallback: bool, output: Bytes)
    requires FitsBits(id, true, 64) && CallPacket(CallHeader(id, Request, NoError), input) in s.requests
    ensures var a := AnswerMade(id, input, hasCallback, output);
      var step := Provide(CallPacket(CallHeader(id, Request, NoError), input), hasCallback, Some(output));
      && Enabled(s, step)
      && Next(s, step) == s.(responses := s.responses + {ResponseFor(a)}, answers := s.answers + {a})
      && CallContent(ResponseFor(a)) == Some((CallHeader(id, Response, a.code), a.output))
  {
    hide CallPacket, CallContent, FitsBits, With;
    CallRoundTrip(CallHeader(id, Request, NoError), input);
    var a := AnswerMade(id, input, hasCallback, output);
    CallRoundTrip(CallHeader(id, Response, a.code), a.output);
    assert AnswerTo(CallPacket(CallHeader(id, Request, NoError), input), hasCallback, Some(output)) == Some(a);
  }

  lemma PendingStill(s: System, id: int)
    requires StaysPending(s) && Alive(s, id) && s.contexts[id].returning.NoResponse? && s.contexts[id].callback.Some?
    ensures id in s.pending
  {
  }

  /** A two-way call sent that still waits can always be answered: the provider answers its request,
      with what its callback serialized or, without one, with nothing, and delivering that response
      completes the call once, with that output. */
  lemma CallIsAnswered(s: System, steps: seq<Step>, id: int, hasCallback: bool, output: Bytes)
    requires Reachable(s, steps) && Alive(s, id) && s.contexts[id].returning.NoResponse?
    requires s.contexts[id].state.Called? && s.contexts[id].calling.Sent? && s.contexts[id].callback.Some?
    ensures var step := Provide(CallPacket(CallHeader(id, Request, NoError), s.contexts[id].input), hasCallback,
        Some(output));
      && Enabled(s, step)
      && Next(s, step).contexts == s.contexts
      && Delivers(Next(s, step), CallPacket(CallHeader(id, Response, if hasCallback then NoError
          else NoCallbackRegistered), if hasCallback then output else []), id, if hasCallback then output else [])
  {
    var input := s.contexts[id].input;
    RequestIsSent(s, steps, id);
    StaysPendingReached(s, steps);
    hide StaysPending;
    assert id in s.pending by { PendingStill(s, id); }
    ProvideAnswers(s, id, input, hasCallback, output);
    var a := AnswerMade(id, input, hasCallback, output);
    var step := Provide(CallPacket(CallHeader(id, Request, NoError), input), hasCallback, Some(output));
    hide Reachable, Next, Enabled, CallPacket, CallContent, Delivers;
    ReachedMore(s, steps, step);
    DeliveryCompletes(Next(s, step), steps + [step], ResponseFor(a), id, a.output, a.code);
  }
}

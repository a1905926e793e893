/** In every run of the link the consumer takes values in the order of the provider, and draining it
    ends with both holding the same value. */
module LateJoinRuns {
  import opened Wrappers
  import opened DOModel
  import opened Packets
  import opened LateJoin

  // ----- Order -----

  lemma {:induction false} MarksSnoc(ms: seq<Message>, m: Message)
    ensures Marks(ms + [m]) == Marks(ms) + Marks([m])
    ensures Marks([m]) == if m.Discover? then [] else [m.nth]
  {
    assert (ms + [m])[..|ms|] == ms;
    assert [m][..0] == [] && Marks([]) == [];
  }

  lemma {:induction false} MarksFront(m: Message, ms: seq<Message>)
    ensures Marks([m] + ms) == Marks([m]) + Marks(ms)
  {
    if ms == [] {
      assert [m] + ms == [m];
    } else {
      var n := |ms| - 1;
      MarksFront(m, ms[..n]);
      assert ([m] + ms)[..n + 1] == [m] + ms[..n];
    }
  }

  lemma NonDecreasingAgain(a: seq<nat>, n: nat, more: nat)
    requires NonDecreasing(a + [n]) && n <= more
    ensures NonDecreasing(a + [more]) && NonDecreasing(a + [more] + [more])
  {
    assert forall i :: 0 <= i < |a| ==> (a + [n])[i] == a[i];
    forall i | 0 <= i < |a| ensures a[i] <= n {
      assert (a + [n])[i] <= (a + [n])[|a|];
    }
  }

  lemma NonDecreasingWithout(a: seq<nat>, x: nat, b: seq<nat>)
    requires NonDecreasing(a + [x] + b)
    ensures NonDecreasing(a + b)
  {
    var c := a + [x] + b;
    forall i, j | 0 <= i < j < |a + b| ensures (a + b)[i] <= (a + b)[j] {
      assert (a + b)[i] == c[if i < |a| then i else i + 1] && (a + b)[j] == c[if j < |a| then j else j + 1];
    }
  }

  lemma OrderedSentOne(l: Link, m: Message)
    requires Ordered(l) && Carries(l.initial, l.handed, m) && (m.Discover? || m.nth == |l.handed|)
    ensures Ordered(l.(toConsumer := l.toConsumer + [m]))
  {
    hide Packet, AllPackets, Carries, Current, Marks, NonDecreasing, Nth, DataPayload;
    MarksSnoc(l.toConsumer, m);
    var a := l.taken + Marks(l.toConsumer);
    NonDecreasingAgain(a, |l.handed|, |l.handed|);
    assert l.taken + (Marks(l.toConsumer) + Marks([m])) == a + Marks([m]);
    assert a + [] == a;
  }

  lemma OrderedHandOverOne(l: Link, leak: bool, data: Payload)
    requires Ordered(l) && Packet(data)
    ensures Ordered(HandOverOne(l, leak, data))
  {
    var k := l.(handed := l.handed + [data]);
    hide Marks, Packet, DataPayload;
    assert forall n: nat :: n <= |l.handed| ==> Nth(l.initial, k.handed, n) == Nth(l.initial, l.handed, n);
    NonDecreasingAgain(l.taken + Marks(l.toConsumer), |l.handed|, |k.handed|);
    assert Ordered(k);
    hide Ordered;
    OrderedSentOne(k, ValueUpdate(data, |k.handed|));
  }

  lemma {:induction false} OrderedHandOverAll(l: Link, leak: bool, ds: seq<Payload>)
    requires Ordered(l) && forall d :: d in ds ==> Packet(d)
    ensures Ordered(HandOverAll(l, leak, ds)) && HandOverAll(l, leak, ds).buffered == l.buffered
  {
    if ds != [] {
      hide Ordered, Packet;
      OrderedHandOverAll(l, leak, ds[..|ds| - 1]);
      OrderedHandOverOne(HandOverAll(l, leak, ds[..|ds| - 1]), leak, ds[|ds| - 1]);
    }
  }

  lemma MarksTaken(l: Link, m: Message, rest: seq<Message>)
    requires l.toConsumer == [m] + rest && InSequence(l.taken, l.toConsumer, |l.handed|)
    ensures InSequence(l.taken, rest, |l.handed|)
    ensures !m.Discover? ==> InSequence(l.taken + [m.nth], rest, |l.handed|)
  {
    MarksFront(m, rest);
    MarksSnoc([], m);
    var more := [|l.handed|];
    hide Marks, NonDecreasing;
    if m.Discover? {
      assert l.taken + ([] + Marks(rest)) + more == l.taken + Marks(rest) + more;
    } else {
      assert l.taken + ([m.nth] + Marks(rest)) + more == l.taken + [m.nth] + (Marks(rest) + more);
      assert l.taken + [m.nth] + Marks(rest) + more == l.taken + [m.nth] + (Marks(rest) + more);
      assert l.taken + Marks(rest) + more == l.taken + (Marks(rest) + more);
      NonDecreasingWithout(l.taken, m.nth, Marks(rest) + more);
    }
  }

  lemma PacketPayload(data: Payload)
    requires data == [] || Packet(data)
    ensures DataPayload(data).None? <==> data == []
    ensures Packet(data) ==> data != []
  {
    if Packet(data) {
      var v :| data == DataPacket(v);
      hide DataPayload;
      DataRoundTrip(v);
    }
  }

  lemma NthPacket(initial: Payload, handed: seq<Payload>, buffered: seq<Payload>, n: nat)
    requires AllPackets(initial, handed, buffered) && n <= |handed|
    ensures Nth(initial, handed, n) == [] || Packet(Nth(initial, handed, n))
    ensures n > 0 ==> Packet(Nth(initial, handed, n))
  {
    if n > 0 { assert handed[n - 1] in handed; }
  }

  /** Storing the packet at the head of the channel. */
  lemma OrderedStore(l: Link, m: Message)
    requires Ordered(l) && !m.Discover? && Carries(l.initial, l.handed, m)
    requires InSequence(l.taken + [m.nth], l.toConsumer, |l.handed|)
    ensures Ordered(Store(l, m.data, m.nth))
  {
    NthPacket(l.initial, l.handed, l.buffered, m.nth);
    hide Packet, AllPackets, Channel, Nth, DataPayload, InSequence;
    PacketPayload(m.data);
  }

  lemma OrderedFrame(k: Link, l: Link)
    requires Ordered(k)
    requires k.initial == l.initial && k.handed == l.handed && k.buffered == l.buffered
    requires k.toConsumer == l.toConsumer && k.taken == l.taken && k.consumed == l.consumed
    ensures Ordered(l)
  {
  }

  lemma OrderedTakeOne(l: Link, m: Message)
    requires Ordered(l) && Carries(l.initial, l.handed, m)
    requires !m.Discover? ==> Ordered(Store(l, m.data, m.nth)) && Ordered(Store(l.(known := true), m.data, m.nth))
    ensures Ordered(TakeOne(l, m))
  {
    hide Ordered, Carries, Store;
    OrderedFrame(l, l.(toProvider := l.toProvider + [AskName]));
    OrderedFrame(l, l.(known := true));
    OrderedFrame(l, l.(known := true, toProvider := l.toProvider + [Unsubscription]));
  }

  /** What is left when the message at the head of the channel is taken off. */
  lemma OrderedRest(l: Link, m: Message, rest: seq<Message>)
    requires Ordered(l) && l.toConsumer == [m] + rest
    ensures Carries(l.initial, l.handed, m) && Ordered(l.(toConsumer := rest))
    ensures !m.Discover? ==> InSequence(l.taken + [m.nth], rest, |l.handed|)
  {
    MarksTaken(l, m, rest);
    assert m in l.toConsumer && forall x :: x in rest ==> x in l.toConsumer;
    hide AllPackets, InSequence, Current, Carries;
  }

  lemma TakeHead(l: Link)
    requires l.toConsumer != []
    ensures l.toConsumer == [l.toConsumer[0]] + l.toConsumer[1..]
    ensures Next(l, Take) == TakeOne(l.(toConsumer := l.toConsumer[1..]), l.toConsumer[0])
  {
  }

  lemma OrderedTake(l: Link)
    requires Ordered(l) && l.toConsumer != []
    ensures Ordered(Next(l, Take))
  {
    hide *;
    var m, rest := l.toConsumer[0], l.toConsumer[1..];
    var k := l.(toConsumer := rest);
    TakeHead(l);
    OrderedRest(l, m, rest);
    if !m.Discover? {
      OrderedStore(k, m);
      OrderedFrame(k, k.(known := true));
      OrderedStore(k.(known := true), m);
    }
    OrderedTakeOne(k, m);
  }

  lemma OrderedSet(l: Link, v: Payload)
    requires Ordered(l)
    ensures Ordered(Next(l, SetData(v)))
  {
    hide InSequence, DataPayload, Current, Channel;
    assert Packet(DataPacket(v));
  }

  /** Updates that carry the last packet. */
  lemma OrderedSent(l: Link, leak: bool, ms: seq<Message>)
    requires Ordered(l) && (ms == [NameMessage(l)] || ms == ValueMessages(l))
    ensures Ordered(Sent(l, leak, ms))
  {
    hide Ordered;
    assert l.toConsumer + [] == l.toConsumer;
    OrderedSentOne(l, NameMessage(l));
    OrderedSentOne(l, ValueUpdate(Last(l), |l.handed|));
  }

  lemma OrderedRegister(l: Link)
    requires Ordered(l) && !l.registered
    ensures Ordered(Next(l, Step.RegisterObject))
  {
    hide Ordered;
    var k := l.(registered := true);
    OrderedFrame(l, k);
    OrderedSentOne(k, Discover);
    OrderedSentOne(k.(toConsumer := k.toConsumer + [Discover]), NameMessage(k));
    assert k.toConsumer + [Discover] + [NameMessage(k)] == k.toConsumer + [Discover, NameMessage(k)];
  }

  lemma OrderedAnswer(l: Link)
    requires Ordered(l) && l.toProvider != []
    ensures Ordered(Next(l, Answer))
  {
    hide Ordered, Sent, NameMessage, ValueMessages;
    var rest := l.toProvider[1..];
    var k := l.(subscribed := true, toProvider := rest);
    OrderedFrame(l, k);
    OrderedFrame(l, l.(subscribed := false, toProvider := rest));
    OrderedSent(k, false, [NameMessage(k)]);
    OrderedSent(k, false, ValueMessages(k));
  }

  lemma OrderedStep(l: Link, step: Step)
    requires Ordered(l) && Enabled(l, step)
    ensures Ordered(Next(l, step))
  {
    hide Ordered, HandOverAll, Sent, AnswerOne, TakeOne, NameMessage, ValueMessages;
    match step
    case SetData(v) =>
      OrderedSet(l, v);
    case RegisterObject =>
      OrderedRegister(l);
    case JoinConsumer =>
      OrderedSentOne(l, Discover);
      OrderedFrame(if l.registered then l.(toConsumer := l.toConsumer + [Discover]) else l, Next(l, step));
    case HandOver(leak) =>
      PacketsBuffered(l);
      OrderedHandOverAll(l, leak, l.buffered);
      OrderedEmptied(HandOverAll(l, leak, l.buffered));
    case Answer =>
      OrderedAnswer(l);
    case ForeignRequest(name, leak) =>
      OrderedSent(l, leak, if name then [NameMessage(l)] else ValueMessages(l));
    case Take =>
      OrderedTake(l);
    case _ =>
      OrderedFrame(l, Next(l, step));
  }

  lemma PacketsBuffered(l: Link)
    requires Ordered(l)
    ensures forall d :: d in l.buffered ==> Packet(d)
  {
    hide Packet;
  }

  lemma OrderedEmptied(l: Link)
    requires Ordered(l)
    ensures Ordered(l.(buffered := []))
  {
    hide Packet, Channel, InSequence, Current;
  }

  // ----- Convergence -----

  lemma {:induction false} DrainSnoc(s: Seen, ms: seq<Message>, m: Message)
    ensures Drain(s, ms + [m]) == See(Drain(s, ms), m)
  {
    assert (ms + [m])[..|ms|] == ms;
  }

  lemma {:induction false} DrainFront(s: Seen, m: Message, ms: seq<Message>)
    ensures Drain(s, [m] + ms) == Drain(See(s, m), ms)
  {
    if ms == [] {
      assert [m] + ms == [m] && [m][..0] == [];
    } else {
      var n := |ms| - 1;
      DrainFront(s, m, ms[..n]);
      assert ([m] + ms)[..n + 1] == [m] + ms[..n];
    }
  }

  lemma ConvergingHandOverOne(l: Link, leak: bool, data: Payload)
    requires Converging(l) && l.registered && data != []
    ensures Converging(HandOverOne(l, leak, data)) && HandOverOne(l, leak, data).registered
  {
    hide Drain;
    DrainSnoc(Now(l), l.toConsumer, ValueUpdate(data, |l.handed| + 1));
    hide NoUnsubscription, ValueAsked;
  }

  lemma {:induction false} ConvergingHandOverAll(l: Link, leak: bool, ds: seq<Payload>)
    requires Converging(l) && l.registered && AllFilled(ds)
    ensures Converging(HandOverAll(l, leak, ds)) && HandOverAll(l, leak, ds).registered
  {
    if ds != [] {
      hide Converging;
      ConvergingHandOverAll(l, leak, ds[..|ds| - 1]);
      ConvergingHandOverOne(HandOverAll(l, leak, ds[..|ds| - 1]), leak, ds[|ds| - 1]);
    }
  }

  /** A further update carrying the last packet. */
  lemma ConvergingSent(l: Link, leak: bool, ms: seq<Message>)
    requires Converging(l) && l.registered && (ms == [NameMessage(l)] || ms == ValueMessages(l))
    ensures Converging(Sent(l, leak, ms))
  {
    hide Drain, NoUnsubscription, ValueAsked;
    DrainSnoc(Now(l), l.toConsumer, NameMessage(l));
    DrainSnoc(Now(l), l.toConsumer, ValueUpdate(Last(l), |l.handed|));
    assert l.toConsumer + [] == l.toConsumer;
  }

  lemma AsksFront(ask: Ask, rest: seq<Ask>)
    ensures NoUnsubscription([ask] + rest) <==> !ask.Unsubscription? && NoUnsubscription(rest)
    ensures ValueAsked([ask] + rest) ==> ValueAsked(rest) || (ask.AskValue? && NoUnsubscription(rest))
  {
    var asks := [ask] + rest;
    assert forall x :: x in asks <==> x == ask || x in rest;
    if ValueAsked(asks) {
      var i :| 0 <= i < |asks| && asks[i].AskValue? && NoUnsubscription(asks[i..]);
      if i == 0 {
        assert asks[0..] == asks;
      } else {
        assert asks[i..] == rest[i - 1..] && rest[i - 1] == asks[i];
      }
    }
  }

  lemma AskedLast(asks: seq<Ask>)
    ensures ValueAsked(asks + [AskValue])
  {
    var more := asks + [AskValue];
    assert more[|asks|..] == [AskValue] && more[|asks|].AskValue?;
  }

  lemma ConvergingAnswerName(l: Link, rest: seq<Ask>)
    requires Converging(l) && l.toProvider == [AskName] + rest
    ensures Converging(AnswerOne(l.(toProvider := rest), AskName))
  {
    AsksFront(AskName, rest);
    var k := l.(toProvider := rest, subscribed := true);
    DrainSnoc(Now(l), l.toConsumer, NameMessage(k));
    hide Drain, NoUnsubscription, ValueAsked;
  }

  lemma ConvergingAnswerValue(l: Link, rest: seq<Ask>)
    requires Converging(l) && l.toProvider == [AskValue] + rest
    ensures Converging(AnswerOne(l.(toProvider := rest), AskValue))
  {
    AsksFront(AskValue, rest);
    var k := l.(toProvider := rest, subscribed := true);
    DrainSnoc(Now(l), l.toConsumer, ValueUpdate(Last(k), |k.handed|));
    assert l.toConsumer + [] == l.toConsumer;
    hide Drain, NoUnsubscription, ValueAsked;
    assert AskName in l.toProvider ==> AskName in rest;
  }

  lemma ConvergingAnswer(l: Link)
    requires Converging(l) && l.toProvider != []
    ensures Converging(Next(l, Answer))
  {
    var ask, rest := l.toProvider[0], l.toProvider[1..];
    assert l.toProvider == [ask] + rest;
    match ask
    case AskName =>
      hide AnswerOne, Converging;
      ConvergingAnswerName(l, rest);
    case AskValue =>
      hide AnswerOne, Converging;
      ConvergingAnswerValue(l, rest);
    case Unsubscription =>
      AsksFront(ask, rest);
      hide Drain, NoUnsubscription, ValueAsked;
  }

  lemma ConvergingTakeUpdate(l: Link, m: Message, rest: seq<Message>)
    requires Converging(l) && l.toConsumer == [m] + rest && !m.Discover?
    requires DataPayload(m.data).None? <==> m.data == []
    ensures Converging(TakeOne(l.(toConsumer := rest), m))
  {
    DrainFront(Now(l), m, rest);
    assert Discover in l.toConsumer ==> Discover in rest;
    hide Drain, NoUnsubscription, ValueAsked, DataPayload;
  }

  lemma ConvergingTake(l: Link)
    requires Converging(l) && Ordered(l) && l.toConsumer != []
    ensures Converging(Next(l, Take))
  {
    hide *;
    var m, rest := l.toConsumer[0], l.toConsumer[1..];
    TakeHead(l);
    if m.Discover? {
      ConvergingTakeDiscover(l, rest);
    } else {
      StoredIffData(l, m);
      ConvergingTakeUpdate(l, m, rest);
    }
  }

  lemma ConvergingTakeDiscover(l: Link, rest: seq<Message>)
    requires Converging(l) && l.toConsumer == [Discover] + rest
    ensures Converging(TakeOne(l.(toConsumer := rest), Discover))
  {
    DrainFront(Now(l), Discover, rest);
    AskedMore(l.toProvider, AskName);
    hide Drain, NoUnsubscription, ValueAsked;
  }

  lemma AskedMore(asks: seq<Ask>, ask: Ask)
    requires !ask.Unsubscription?
    ensures NoUnsubscription(asks) ==> NoUnsubscription(asks + [ask])
    ensures ValueAsked(asks) ==> ValueAsked(asks + [ask])
  {
    if ValueAsked(asks) {
      var i :| 0 <= i < |asks| && asks[i].AskValue? && NoUnsubscription(asks[i..]);
      assert (asks + [ask])[i..] == asks[i..] + [ask] && (asks + [ask])[i] == asks[i];
    }
  }

  lemma StoredIffData(l: Link, m: Message)
    requires Ordered(l) && m in l.toConsumer && !m.Discover?
    ensures DataPayload(m.data).None? <==> m.data == []
  {
    NthPacket(l.initial, l.handed, l.buffered, m.nth);
    hide DataPayload, Packet;
    PacketPayload(m.data);
  }

  lemma ConvergingRegister(l: Link)
    requires Converging(l) && !l.registered
    ensures Converging(Next(l, Step.RegisterObject))
  {
    DrainTwo(Now(l), NameUpdate(Last(l), |l.handed|));
    assert [] + [Discover, NameUpdate(Last(l), |l.handed|)] == [Discover, NameUpdate(Last(l), |l.handed|)];
    hide Drain, ValueAsked;
  }

  lemma ConvergingJoin(l: Link)
    requires Converging(l) && !l.joined
    ensures Converging(Next(l, JoinConsumer))
  {
    DrainFront(Now(l), Discover, []);
    assert [Discover] + [] == [Discover] && [] + [Discover] == [Discover];
    hide Drain, ValueAsked;
  }

  lemma ConvergingTarget(l: Link, step: Step)
    requires Converging(l) && (step.AddTarget? || step.AddNamesake?) && Enabled(l, step)
    ensures Converging(Next(l, step))
  {
    AskedLast(l.toProvider);
    hide Drain, NoUnsubscription, ValueAsked;
  }

  lemma ConvergingSet(l: Link, v: Payload)
    requires Converging(l)
    ensures Converging(Next(l, SetData(v)))
  {
    hide Drain, NoUnsubscription, ValueAsked, DataPacket;
  }

  lemma ConvergingStep(l: Link, step: Step)
    requires Ordered(l) && Converging(l) && Enabled(l, step)
    ensures Converging(Next(l, step))
  {
    hide Ordered, Converging, HandOverAll, Sent, TakeOne, AnswerOne;
    match step
    case SetData(v) =>
      ConvergingSet(l, v);
    case RegisterObject =>
      ConvergingRegister(l);
    case HandOver(leak) =>
      BufferedFilled(l);
      ConvergingHandOverAll(l, leak, l.buffered);
      ConvergingFrame(HandOverAll(l, leak, l.buffered));
    case Answer =>
      ConvergingAnswer(l);
    case ForeignRequest(name, leak) =>
      ConvergingSent(l, leak, if name then [NameMessage(l)] else ValueMessages(l));
    case Take =>
      ConvergingTake(l);
    case JoinConsumer =>
      ConvergingJoin(l);
    case _ =>
      ConvergingTarget(l, step);
  }

  lemma DrainTwo(s: Seen, m: Message)
    ensures Drain(s, [Discover, m]) == See(s, m)
  {
    DrainFront(s, Discover, [m]);
    DrainFront(s, m, []);
    assert [Discover] + [m] == [Discover, m] && [m] + [] == [m];
  }

  lemma BufferedFilled(l: Link)
    requires Ordered(l)
    ensures AllFilled(l.buffered)
  {
    hide DataPayload;
    forall i | 0 <= i < |l.buffered| ensures l.buffered[i] != [] {
      assert l.buffered[i] in l.buffered;
      PacketPayload(l.buffered[i]);
    }
  }

  lemma ConvergingFrame(l: Link)
    requires Converging(l)
    ensures Converging(l.(buffered := []))
  {
    hide Drain, NoUnsubscription, ValueAsked;
  }

  // ----- What is submitted -----

  lemma {:induction false} HandsOver(l: Link, leak: bool, ds: seq<Payload>)
    ensures var k := HandOverAll(l, leak, ds); k == l.(handed := l.handed + ds, toConsumer := k.toConsumer)
  {
    if ds == [] {
      assert l.handed + [] == l.handed;
    } else {
      var n := |ds| - 1;
      HandsOver(l, leak, ds[..n]);
      assert l.handed + ds[..n] + [ds[n]] == l.handed + ds;
    }
  }

  lemma SubmittedSet(l: Link, v: Payload, start: Link)
    requires Submitted(l, start)
    ensures Submitted(Next(l, SetData(v)), start)
  {
    assert (l.sets + [v])[..|l.sets|] == l.sets;
    assert l.handed + (l.buffered + [DataPacket(v)]) == (l.handed + l.buffered) + [DataPacket(v)];
    assert Submissions(l.onChange, start.provided, l.sets) + [] == Submissions(l.onChange, start.provided, l.sets);
    hide DataPacket;
  }

  lemma SubmittedHandOver(l: Link, leak: bool, start: Link)
    requires Submitted(l, start)
    ensures Submitted(HandOverAll(l, leak, l.buffered).(buffered := []), start)
  {
    HandsOver(l, leak, l.buffered);
    hide HandOverAll, Submissions, Value;
    assert l.handed + l.buffered + [] == l.handed + l.buffered;
  }

  lemma SubmittedFrame(k: Link, l: Link, start: Link)
    requires Submitted(k, start)
    requires l.onChange == k.onChange && l.initial == k.initial && l.provided == k.provided && l.sets == k.sets
    requires l.handed == k.handed && l.buffered == k.buffered
      && (l.taken == [] ==> k.taken == [] && l.consumed == k.consumed)
    ensures Submitted(l, start)
  {
  }

  lemma StoreFrame(l: Link, data: Payload, nth: nat)
    ensures var r := Store(l, data, nth);
      && r == l.(consumed := r.consumed, taken := r.taken)
      && (r.taken != [] || (r.taken == l.taken && r.consumed == l.consumed))
  {
    hide DataPayload;
  }

  lemma TakeOneFrame(l: Link, m: Message)
    ensures var r := TakeOne(l, m);
      && r == l.(known := r.known, toProvider := r.toProvider, consumed := r.consumed, taken := r.taken)
      && (r.taken != [] || (r.taken == l.taken && r.consumed == l.consumed))
  {
    hide Store;
    if !m.Discover? {
      StoreFrame(l, m.data, m.nth);
      StoreFrame(l.(known := true), m.data, m.nth);
    }
  }

  lemma SubmittedTake(l: Link, start: Link)
    requires Submitted(l, start) && l.toConsumer != []
    ensures Submitted(Next(l, Take), start)
  {
    var k := l.(toConsumer := l.toConsumer[1..]);
    TakeOneFrame(k, l.toConsumer[0]);
    hide Submitted, TakeOne;
    SubmittedFrame(l, TakeOne(k, l.toConsumer[0]), start);
  }

  lemma AnswerOneMessages(l: Link, ask: Ask)
    ensures var r := AnswerOne(l, ask);
      && r == l.(subscribed := r.subscribed, toConsumer := r.toConsumer)
      && (|| r.toConsumer == l.toConsumer
          || (ask.AskName? && r.toConsumer == l.toConsumer + [NameMessage(l)])
          || (ask.AskValue? && r.toConsumer == l.toConsumer + [ValueUpdate(Last(l), |l.handed|)]))
  {
    assert l.toConsumer + [] == l.toConsumer;
    hide Nth;
  }

  lemma OtherFrame(l: Link, step: Step)
    requires Enabled(l, step) && !step.SetData? && !step.HandOver? && !step.Take?
    ensures var n := Next(l, step);
      n == l.(registered := n.registered, joined := n.joined, subscribed := n.subscribed, target := n.target,
              toConsumer := n.toConsumer, toProvider := n.toProvider)
  {
    hide NameMessage, ValueMessages, AnswerOne;
    if step.Answer? {
      AnswerOneMessages(l.(toProvider := l.toProvider[1..]), l.toProvider[0]);
      hide Enabled;
    }
  }

  lemma SubmittedOther(l: Link, step: Step, start: Link)
    requires Submitted(l, start) && Enabled(l, step) && !step.SetData? && !step.HandOver? && !step.Take?
    ensures Submitted(Next(l, step), start)
  {
    OtherFrame(l, step);
    hide Submitted, Next, Enabled;
    SubmittedFrame(l, Next(l, step), start);
  }

  lemma SubmittedStep(l: Link, step: Step, start: Link)
    requires Submitted(l, start) && Enabled(l, step)
    ensures Submitted(Next(l, step), start)
  {
    hide HandOverAll, Submitted, TakeOne;
    if step.HandOver? {
      SubmittedHandOver(l, step.leak, start);
    } else {
      hide Next;
      if step.SetData? { SubmittedSet(l, step.value, start); }
      else if step.Take? { SubmittedTake(l, start); }
      else { SubmittedOther(l, step, start); }
    }
  }

  lemma SubmissionsSnoc(onChange: bool, initial: Payload, sets: seq<Payload>, v: Payload)
    ensures Submissions(onChange, initial, sets + [v]) ==
      Submissions(onChange, initial, sets) + if onChange && v == Value(initial, sets) then [] else [DataPacket(v)]
    ensures Value(initial, sets + [v]) == v
  {
    assert (sets + [v])[..|sets|] == sets;
  }

  lemma NothingNewSnoc(onChange: bool, initial: Payload, sets: seq<Payload>, v: Payload)
    ensures NothingNew(onChange, initial, sets + [v]) <==>
      onChange && NothingNew(onChange, initial, sets) && v == initial
  {
    assert (sets + [v])[|sets|] == v && forall i :: 0 <= i < |sets| ==> (sets + [v])[i] == sets[i];
  }

  /** The last packet submitted carries the provider's value. */
  lemma {:induction false} LastSubmission(onChange: bool, initial: Payload, sets: seq<Payload>)
    ensures var ps := Submissions(onChange, initial, sets);
      if ps == [] then Value(initial, sets) == initial else ps[|ps| - 1] == DataPacket(Value(initial, sets))
    ensures Submissions(onChange, initial, sets) == [] <==> NothingNew(onChange, initial, sets)
  {
    hide Submissions, Value, NothingNew, DataPacket;
    if sets == [] {
      NoSubmission(onChange, initial);
    } else {
      var front, v := sets[..|sets| - 1], sets[|sets| - 1];
      assert sets == front + [v];
      LastSubmission(onChange, initial, front);
      SubmissionsSnoc(onChange, initial, front, v);
      NothingNewSnoc(onChange, initial, front, v);
      var ps := Submissions(onChange, initial, front);
      assert ps + [] == ps;
    }
  }

  lemma NoSubmission(onChange: bool, initial: Payload)
    ensures Submissions(onChange, initial, []) == [] && Value(initial, []) == initial
      && NothingNew(onChange, initial, [])
  {
  }

  // ----- What every run promises -----

  lemma {:induction false} ReachedInvariants(l: Link, steps: seq<Step>, start: Link)
    requires Starting(start) && Reachable(l, steps, start)
    ensures Ordered(l) && Converging(l) && Submitted(l, start)
    decreases |steps|
  {
    if steps == [] {
      assert start.handed + start.buffered == [];
    } else {
      var n := |steps| - 1;
      var k :| Reachable(k, steps[..n], start) && Enabled(k, steps[n]) && l == Next(k, steps[n]);
      hide Ordered, Converging, Submitted, Starting, Enabled, Next;
      ReachedInvariants(k, steps[..n], start);
      OrderedStep(k, steps[n]);
      ConvergingStep(k, steps[n]);
      SubmittedStep(k, steps[n], start);
    }
  }

  /** At any time the consumer's value is the one it started with or that of the packet it took
      last, and it took packets only in the order the provider handed them over. */
  lemma ProviderOrder(l: Link, steps: seq<Step>, start: Link)
    requires Starting(start) && Reachable(l, steps, start)
    ensures NonDecreasing(l.taken) && forall nth :: nth in l.taken ==> nth <= |l.handed|
    ensures if l.taken == [] then l.consumed == start.consumed
      else var nth := l.taken[|l.taken| - 1];
        nth <= |l.handed| && DataPayload(Nth(l.initial, l.handed, nth)) == Some(l.consumed)
    ensures l.handed <= Submissions(l.onChange, start.provided, l.sets)
  {
    hide Reachable, Starting, Converging, AllPackets, Channel, DataPayload, Submissions, Value;
    ReachedInvariants(l, steps, start);
    var all := l.taken + Marks(l.toConsumer) + [|l.handed|];
    forall i | 0 <= i < |l.taken| ensures l.taken[i] <= |l.handed| {
      assert all[i] == l.taken[i] && all[i] <= all[|all| - 1];
    }
    forall i, j | 0 <= i < j < |l.taken| ensures l.taken[i] <= l.taken[j] {
      assert all[i] == l.taken[i] && all[j] == l.taken[j];
    }
  }

  lemma DrainedFresh(l: Link)
    requires Converging(l) && Drained(l)
    ensures l.known && Fresh(l, Now(l))
  {
    assert !ValueAsked([]) && Drain(Now(l), []) == Now(l);
    hide ValueAsked, NoUnsubscription;
  }

  /** A consumer that has seen the last packet holds it. */
  lemma HoldsLast(l: Link, start: Link)
    requires Ordered(l) && Submitted(l, start) && Fresh(l, Now(l))
    ensures if Last(l) == [] then l.taken == [] && l.consumed == start.consumed
      else DataPayload(Last(l)) == Some(l.consumed)
  {
    hide Channel, NonDecreasing, Marks, Submissions, Value, DataPayload, Packet;
    NthPacket(l.initial, l.handed, l.buffered, |l.handed|);
    if Last(l) == [] {
      PacketPayload([]);
    }
  }

  /** Late-join convergence: once the buffer, the channels and the requests are drained, the
      consumer knows the object, and its value is the provider's exactly when the provider set a
      value since connecting (one that differs from its first value if it transmits on change),
      or the two values agreed to begin with. */
  lemma Convergence(l: Link, steps: seq<Step>, start: Link)
    requires Starting(start) && Reachable(l, steps, start) && Drained(l)
    ensures l.known
    ensures !NothingNew(l.onChange, start.provided, l.sets) ==> l.consumed == l.provided
    ensures NothingNew(l.onChange, start.provided, l.sets) ==>
      l.provided == start.provided && l.consumed == Fallback(start)
    ensures l.consumed == l.provided <==>
      !NothingNew(l.onChange, start.provided, l.sets) || start.provided == Fallback(start)
  {
    hide Reachable, Starting, Converging, Ordered, Submissions, Value, DataPayload, DataPacket, Fresh, NothingNew;
    ReachedInvariants(l, steps, start);
    DrainedFresh(l);
    LastSubmission(l.onChange, start.provided, l.sets);
    assert l.handed + [] == l.handed;
    HoldsLast(l, start);
    DataRoundTrip(l.provided);
    assert DataPayload([]).None? by { PacketPayload([]); }
    assert DataPacket(l.provided) != [];
  }

  // ----- Draining ends -----

  lemma {:induction false} MessagesWeightSnoc(ms: seq<Message>, m: Message)
    ensures MessagesWeight(ms + [m]) == MessagesWeight(ms) + MessageWeight(m)
  {
    if ms == [] {
      assert [] + [m] == [m];
    } else {
      MessagesWeightSnoc(ms[1..], m);
      assert (ms + [m])[1..] == ms[1..] + [m];
    }
  }

  lemma {:induction false} AsksWeightSnoc(asks: seq<Ask>, a: Ask)
    ensures AsksWeight(asks + [a]) == AsksWeight(asks) + AskWeight(a)
  {
    if asks == [] {
      assert [] + [a] == [a];
    } else {
      AsksWeightSnoc(asks[1..], a);
      assert (asks + [a])[1..] == asks[1..] + [a];
    }
  }

  lemma TakeOneAsks(l: Link, m: Message)
    ensures var r := TakeOne(l, m);
      || r.toProvider == l.toProvider
      || (m.Discover? && r.toProvider == l.toProvider + [AskName])
      || (m.NameUpdate? && r.toProvider == l.toProvider + [Unsubscription])
  {
    hide DataPayload;
  }

  lemma TakeLightens(l: Link)
    requires l.toConsumer != []
    ensures Weight(Next(l, Take)) < Weight(l)
    ensures var n := Next(l, Take);
      n.registered == l.registered && n.joined == l.joined && n.target == l.target && n.buffered == l.buffered
  {
    var k, m := l.(toConsumer := l.toConsumer[1..]), l.toConsumer[0];
    TakeOneFrame(k, m);
    TakeOneAsks(k, m);
    AsksWeightSnoc(l.toProvider, AskName);
    AsksWeightSnoc(l.toProvider, Unsubscription);
    hide AsksWeight, TakeOne;
  }

  lemma AnswerLightens(l: Link)
    requires l.toProvider != []
    ensures Weight(Next(l, Answer)) < Weight(l)
    ensures var n := Next(l, Answer);
      n.registered == l.registered && n.joined == l.joined && n.target == l.target && n.buffered == l.buffered
  {
    var k := l.(toProvider := l.toProvider[1..]);
    AnswerOneMessages(k, l.toProvider[0]);
    MessagesWeightSnoc(l.toConsumer, NameMessage(k));
    MessagesWeightSnoc(l.toConsumer, ValueUpdate(Last(k), |k.handed|));
    hide MessagesWeight, Last, AnswerOne;
  }

  lemma Extended(l: Link, steps: seq<Step>, start: Link, step: Step)
    requires Reachable(l, steps, start) && Enabled(l, step)
    ensures Reachable(Next(l, step), steps + [step], start)
  {
    hide Enabled, Next;
    assert (steps + [step])[..|steps|] == steps;
  }

  lemma {:induction false} LightensInAnyOrder(l: Link, steps: seq<Step>, end: Link)
    requires Leads(l, steps, end) && forall step :: step in steps ==> step.Take? || step.Answer?
    ensures |steps| + Weight(end) <= Weight(l)
    ensures end.registered == l.registered && end.joined == l.joined && end.target == l.target
    ensures end.buffered == l.buffered
    decreases |steps|
  {
    if steps != [] {
      hide Weight, Next, TakeOne, AnswerOne;
      var step := steps[0];
      assert step in steps && forall x :: x in steps[1..] ==> x in steps;
      if step.Take? { TakeLightens(l); } else { AnswerLightens(l); }
      LightensInAnyOrder(Next(l, step), steps[1..], end);
    }
  }

  /** Taking messages and answering requests comes to an end in whatever order these are done: there
      are no more such steps than the weight of the state, and when none is left to do, the link is
      drained. */
  lemma DrainsInAnyOrder(l: Link, steps: seq<Step>, end: Link)
    requires Leads(l, steps, end) && forall step :: step in steps ==> step.Take? || step.Answer?
    requires l.joined && l.registered && l.target && l.buffered == []
    ensures |steps| <= Weight(l)
    ensures Drained(end) <==> !Enabled(end, Take) && !Enabled(end, Answer)
  {
    hide Weight, Leads;
    LightensInAnyOrder(l, steps, end);
  }

  /** From every reachable state with an empty buffer, taking messages and answering requests leads
      to a drained state. */
  lemma {:induction false} Drains(l: Link, steps: seq<Step>, start: Link) returns (drained: Link, more: seq<Step>)
    requires Reachable(l, steps, start) && l.joined && l.registered && l.target && l.buffered == []
    ensures Reachable(drained, steps + more, start) && Drained(drained)
    ensures forall step :: step in more ==> step.Take? || step.Answer?
    decreases Weight(l)
  {
    hide Reachable, Weight, Next;
    if l.toConsumer == [] && l.toProvider == [] {
      drained, more := l, [];
      assert steps + [] == steps;
    } else {
      var step := if l.toConsumer != [] then Take else Answer;
      if l.toConsumer != [] { TakeLightens(l); } else { AnswerLightens(l); }
      Extended(l, steps, start, step);
      drained, more := Drains(Next(l, step), steps + [step], start);
      assert steps + [step] + more == steps + ([step] + more);
      more := [step] + more;
    }
  }

  /** A provider transmitting on change that is set to the value it already has: everything drains
      and the consumer keeps another value. */
  lemma UnchangedValueIsNotSent(v: Payload, other: Payload) returns (l: Link, steps: seq<Step>)
    requires v != other
    ensures var start := Start(true, v, [], other, true, true);
      Starting(start) && Reachable(l, steps, start) && Drained(l) && SetData(v) in steps && l.consumed == other
        && l.provided == v
  {
    var start := Start(true, v, [], other, true, true);
    assert Reachable(start, [], start);
    Extended(start, [], start, SetData(v));
    var a := Next(start, SetData(v));
    assert a.buffered == [] && a.provided == v && a.sets == [v];
    Extended(a, [] + [SetData(v)], start, Step.RegisterObject);
    var b := Next(a, Step.RegisterObject);
    assert b.buffered == [] && b.joined && b.registered && b.target;
    var more: seq<Step>;
    var s := [] + [SetData(v)] + [Step.RegisterObject];
    hide Reachable, Next, DataPayload;
    l, more := Drains(b, s, start);
    steps := s + more;
    assert s[0] == SetData(v) && steps[0] == SetData(v);
    DrainedSame(l, steps, start, v);
  }

  lemma DrainedSame(l: Link, steps: seq<Step>, start: Link, v: Payload)
    requires Starting(start) && Reachable(l, steps, start) && Drained(l) && start.onChange && start.provided == v
    requires forall step :: step in steps && step.SetData? ==> step.value == v
    ensures l.provided == v && l.consumed == Fallback(start)
  {
    hide Starting, Reachable, Drained, Ordered, Converging, Fallback, Submissions, Value;
    SetsFromSteps(l, steps, start);
    assert forall i :: 0 <= i < |l.sets| ==> SetData(l.sets[i]) in steps;
    Convergence(l, steps, start);
    ReachedInvariants(l, steps, start);
    LastSubmission(l.onChange, start.provided, l.sets);
  }

  lemma {:induction false} SetsFromSteps(l: Link, steps: seq<Step>, start: Link)
    requires Starting(start) && Reachable(l, steps, start)
    ensures forall v :: v in l.sets ==> SetData(v) in steps
    decreases |steps|
  {
    if steps != [] {
      var n := |steps| - 1;
      var k :| Reachable(k, steps[..n], start) && Enabled(k, steps[n]) && l == Next(k, steps[n]);
      SetsFromSteps(k, steps[..n], start);
      SetsStep(k, steps[n]);
      hide Reachable, Next, Enabled;
      assert forall x :: x in steps[..n] ==> x in steps;
      assert steps[n] in steps;
    }
  }

  lemma SetsStep(l: Link, step: Step)
    requires Enabled(l, step)
    ensures Next(l, step).sets == if step.SetData? then l.sets + [step.value] else l.sets
  {
    if step.HandOver? {
      HandsOver(l, step.leak, l.buffered);
      hide HandOverAll;
    } else if step.Take? {
      TakeOneFrame(l.(toConsumer := l.toConsumer[1..]), l.toConsumer[0]);
      hide TakeOne;
    } else if !step.SetData? {
      OtherFrame(l, step);
      hide Next, Enabled;
    }
  }
}

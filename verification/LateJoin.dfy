/** One provider and one consumer of a data member: what the provider's value does on its way
    through the transmit buffer, the channels of the RTI and the consumer's late discovery. */
module LateJoin {
  import opened Wrappers
  import opened DOModel
  import opened Packets

  /** What reaches the consumer about the provider's object. Updates carry how many packets the
      provider had handed over: 0 for the data it started with. */
  datatype Message = Discover | NameUpdate(data: Payload, nth: nat) | ValueUpdate(data: Payload, nth: nat)

  /** What reaches the provider from the consumer. */
  datatype Ask = AskName | AskValue | Unsubscription

  /** The link between provider and consumer:
      the value entities at both ends (provided, consumed), whether the provider transmits only on
      change, the packets buffered and those handed over, the data the source started with; whether
      the object is registered, the consumer joined, subscribed, knows the object and has a target;
      the channels; the positions of the packets the consumer took; and the values set at the
      provider since it connected. */
  datatype Link = Link(
    onChange: bool, provided: Payload, buffered: seq<Payload>, handed: seq<Payload>, initial: Payload,
    registered: bool, joined: bool, subscribed: bool, known: bool, target: bool, consumed: Payload,
    toConsumer: seq<Message>, toProvider: seq<Ask>, taken: seq<nat>, sets: seq<Payload>)

  datatype Step =
    | SetData(value: Payload)
    | RegisterObject
    | JoinConsumer
    | HandOver(leak: bool)
    | Answer
    | ForeignRequest(name: bool, leak: bool)
    | Take
    | AddTarget
    | AddNamesake

  /** The data a source starts with is a packet of an earlier session, or nothing; it is held by
      the source until a packet is handed over. */
  function Nth(initial: Payload, handed: seq<Payload>, nth: nat): Payload
    requires nth <= |handed|
  {
    if nth == 0 then initial else handed[nth - 1]
  }

  function Last(l: Link): Payload {
    Nth(l.initial, l.handed, |l.handed|)
  }

  function Start(onChange: bool, provided: Payload, initial: Payload, consumed: Payload, joined: bool,
      target: bool): Link {
    Link(onChange, provided, [], [], initial, false, joined, joined, false, target, consumed, [], [], [], [])
  }

  predicate Enabled(l: Link, step: Step) {
    match step
    case RegisterObject => !l.registered
    case JoinConsumer => !l.joined
    case HandOver(_) => l.registered
    case Answer => l.toProvider != []
    case ForeignRequest(_, _) => l.registered
    case Take => l.toConsumer != []
    case AddTarget => !l.target
    case _ => true
  }

  /** An update reaches the consumer while it is joined and subscribed, and may still do so, or
      not, while it is unsubscribed. */
  function Sent(l: Link, leak: bool, ms: seq<Message>): Link {
    if l.joined && (l.subscribed || leak) then l.(toConsumer := l.toConsumer + ms) else l
  }

  function NameMessage(l: Link): Message {
    NameUpdate(Last(l), |l.handed|)
  }

  function ValueMessages(l: Link): seq<Message> {
    if Last(l) != [] then [ValueUpdate(Last(l), |l.handed|)] else []
  }

  function HandOverOne(l: Link, leak: bool, data: Payload): Link {
    Sent(l.(handed := l.handed + [data]), leak, [ValueUpdate(data, |l.handed| + 1)])
  }

  function HandOverAll(l: Link, leak: bool, ds: seq<Payload>): Link {
    if ds == [] then l else HandOverOne(HandOverAll(l, leak, ds[..|ds| - 1]), leak, ds[|ds| - 1])
  }

  /** The callback at the consumer: the header is stripped and the rest becomes the value. */
  function Store(l: Link, data: Payload, nth: nat): Link {
    var payload := DataPayload(data);
    if payload.Some? then l.(consumed := payload.value, taken := l.taken + [nth]) else l
  }

  function TakeOne(l: Link, m: Message): Link {
    match m
    case Discover => l.(toProvider := l.toProvider + [AskName])
    case NameUpdate(data, nth) =>
      if l.known then l
      else if l.target then var k := l.(known := true); if data != [] then Store(k, data, nth) else k
      else l.(known := true, toProvider := l.toProvider + [Unsubscription])
    case ValueUpdate(data, nth) => if l.known && l.target then Store(l, data, nth) else l
  }

  function AnswerOne(l: Link, ask: Ask): Link {
    match ask
    case AskName => var k := l.(subscribed := true); Sent(k, false, [NameMessage(k)])
    case AskValue => var k := l.(subscribed := true); Sent(k, false, ValueMessages(k))
    case Unsubscription => l.(subscribed := false)
  }

  function Next(l: Link, step: Step): Link
    requires Enabled(l, step)
  {
    match step
    case SetData(v) =>
      l.(provided := v, sets := l.sets + [v],
         buffered := if l.onChange && v == l.provided then l.buffered else l.buffered + [DataPacket(v)])
    case RegisterObject =>
      var k := l.(registered := true);
      Sent(k, false, [Discover, NameMessage(k)])
    case JoinConsumer =>
      l.(joined := true, subscribed := true, toConsumer := if l.registered then l.toConsumer + [Discover]
        else l.toConsumer)
    case HandOver(leak) => HandOverAll(l, leak, l.buffered).(buffered := [])
    case Answer => AnswerOne(l.(toProvider := l.toProvider[1..]), l.toProvider[0])
    case ForeignRequest(name, leak) => Sent(l, leak, if name then [NameMessage(l)] else ValueMessages(l))
    case Take => TakeOne(l.(toConsumer := l.toConsumer[1..]), l.toConsumer[0])
    case AddTarget => l.(target := true, toProvider := if l.known then l.toProvider + [AskValue] else l.toProvider)
    case AddNamesake => l.(toProvider := if l.known then l.toProvider + [AskValue] else l.toProvider)
  }

  ghost predicate Packet(data: Payload) {
    exists v :: data == DataPacket(v)
  }

  ghost predicate Reachable(l: Link, steps: seq<Step>, start: Link)
    decreases |steps|
  {
    if steps == [] then l == start else
      var n := |steps| - 1;
      exists k :: Reachable(k, steps[..n], start) && Enabled(k, steps[n]) && l == Next(k, steps[n])
  }

  /** The steps lead from one state to another. */
  ghost predicate Leads(l: Link, steps: seq<Step>, end: Link)
    decreases |steps|
  {
    if steps == [] then l == end else Enabled(l, steps[0]) && Leads(Next(l, steps[0]), steps[1..], end)
  }

  // ----- Order -----

  ghost predicate NonDecreasing(marks: seq<nat>) {
    forall i, j :: 0 <= i < j < |marks| ==> marks[i] <= marks[j]
  }

  function Marks(ms: seq<Message>): seq<nat> {
    if ms == [] then [] else
      var n := |ms| - 1;
      Marks(ms[..n]) + if ms[n].Discover? then [] else [ms[n].nth]
  }

  /** What is handed over or buffered, and what the source starts with unless nothing, is a packet. */
  ghost predicate AllPackets(initial: Payload, handed: seq<Payload>, buffered: seq<Payload>) {
    && (initial == [] || Packet(initial))
    && (forall d :: d in handed ==> Packet(d)) && (forall d :: d in buffered ==> Packet(d))
  }

  /** Each update in the channel carries the packet of its position. */
  ghost predicate Carries(initial: Payload, handed: seq<Payload>, m: Message) {
    m.Discover? || (m.nth <= |handed| && m.data == Nth(initial, handed, m.nth))
  }

  ghost predicate Channel(initial: Payload, handed: seq<Payload>, ms: seq<Message>) {
    forall m :: m in ms ==> Carries(initial, handed, m)
  }

  /** The consumer's value is that of the packet taken last. */
  ghost predicate Current(initial: Payload, handed: seq<Payload>, taken: seq<nat>, consumed: Payload) {
    taken != [] ==>
      var nth := taken[|taken| - 1];
      nth <= |handed| && DataPayload(Nth(initial, handed, nth)) == Some(consumed)
  }

  /** The packets taken, those in the channel, and the next one are in the order they were handed over. */
  ghost predicate InSequence(taken: seq<nat>, channel: seq<Message>, handed: nat) {
    NonDecreasing(taken + Marks(channel) + [handed])
  }

  /** The consumer took packets in the order the provider handed them over, and what is in the
      channel continues that order. */
  ghost predicate Ordered(l: Link) {
    && AllPackets(l.initial, l.handed, l.buffered)
    && Channel(l.initial, l.handed, l.toConsumer)
    && InSequence(l.taken, l.toConsumer, |l.handed|)
    && Current(l.initial, l.handed, l.taken, l.consumed)
  }

  // ----- Convergence -----

  /** What a consumer with a target has seen: whether it knows the object, and the position of the
      packet it took last. */
  datatype Seen = Seen(known: bool, mark: Option<nat>)

  function See(s: Seen, m: Message): Seen {
    match m
    case Discover => s
    case NameUpdate(data, nth) => if s.known then s else Seen(true, if data != [] then Some(nth) else s.mark)
    case ValueUpdate(data, nth) => if s.known && data != [] then Seen(true, Some(nth)) else s
  }

  /** What it will have seen once the channel is drained. */
  function Drain(s: Seen, ms: seq<Message>): (r: Seen)
    ensures s.known ==> r.known
  {
    if ms == [] then s else See(Drain(s, ms[..|ms| - 1]), ms[|ms| - 1])
  }

  function Now(l: Link): Seen {
    Seen(l.known, if l.taken == [] then None else Some(l.taken[|l.taken| - 1]))
  }

  predicate Fresh(l: Link, s: Seen) {
    Last(l) == [] || s.mark == Some(|l.handed|)
  }

  ghost predicate NoUnsubscription(asks: seq<Ask>) {
    forall ask :: ask in asks ==> !ask.Unsubscription?
  }

  /** A value request with no unsubscription behind it. */
  ghost predicate ValueAsked(asks: seq<Ask>) {
    exists i :: 0 <= i < |asks| && asks[i].AskValue? && NoUnsubscription(asks[i..])
  }

  /** What keeps the consumer on its way to the provider's last packet. A consumer that does not
      know the object stays subscribed, and will learn the object's name together with the last
      packet; one that knows it and has a target is subscribed and will see the last packet, or a
      request for it is on its way. */
  ghost predicate Converging(l: Link) {
    if !l.joined || !l.registered then
      && l.toConsumer == [] && l.toProvider == [] && !l.known && l.taken == []
      && (!l.registered ==> l.handed == []) && (l.joined ==> l.subscribed)
    else if !l.known then
      && l.subscribed && NoUnsubscription(l.toProvider)
      && var s := Drain(Now(l), l.toConsumer);
         if s.known then Fresh(l, s) else AskName in l.toProvider || Discover in l.toConsumer
    else l.target ==>
      ValueAsked(l.toProvider) || (NoUnsubscription(l.toProvider) && l.subscribed
        && Fresh(l, Drain(Now(l), l.toConsumer)))
  }

  ghost predicate AllFilled(ds: seq<Payload>) {
    forall i :: 0 <= i < |ds| ==> ds[i] != []
  }

  // ----- What is submitted -----

  /** The value after the provider set these, starting from the given one. */
  function Value(initial: Payload, sets: seq<Payload>): Payload {
    if sets == [] then initial else sets[|sets| - 1]
  }

  /** The packets submitted: one for each value set, or for each that differs from the one before. */
  function Submissions(onChange: bool, initial: Payload, sets: seq<Payload>): seq<Payload> {
    if sets == [] then [] else
      var n := |sets| - 1;
      Submissions(onChange, initial, sets[..n]) +
        if onChange && sets[n] == Value(initial, sets[..n]) then [] else [DataPacket(sets[n])]
  }

  ghost predicate Submitted(l: Link, start: Link) {
    && l.onChange == start.onChange && l.initial == start.initial
    && l.provided == Value(start.provided, l.sets)
    && l.handed + l.buffered == Submissions(l.onChange, start.provided, l.sets)
    && (l.taken == [] ==> l.consumed == start.consumed)
  }

  /** Nothing is submitted exactly when no value was set, or none that differs from the first. */
  ghost predicate NothingNew(onChange: bool, initial: Payload, sets: seq<Payload>) {
    if onChange then forall i :: 0 <= i < |sets| ==> sets[i] == initial else sets == []
  }

  ghost predicate Starting(start: Link) {
    exists onChange, provided, initial, consumed, joined, target ::
      (initial == [] || Packet(initial)) && start == Start(onChange, provided, initial, consumed, joined, target)
  }

  predicate Drained(l: Link) {
    l.joined && l.registered && l.target && l.buffered == [] && l.toConsumer == [] && l.toProvider == []
  }

  /** The value a consumer ends with when nothing was submitted. */
  function Fallback(start: Link): Payload {
    if DataPayload(start.initial).Some? then DataPayload(start.initial).value else start.consumed
  }

  // ----- Draining ends -----

  function MessageWeight(m: Message): nat {
    match m case Discover => 4 case NameUpdate(_, _) => 2 case ValueUpdate(_, _) => 1
  }

  function AskWeight(a: Ask): nat {
    match a case AskName => 3 case AskValue => 2 case Unsubscription => 1
  }

  function MessagesWeight(ms: seq<Message>): nat {
    if ms == [] then 0 else MessageWeight(ms[0]) + MessagesWeight(ms[1..])
  }

  function AsksWeight(asks: seq<Ask>): nat {
    if asks == [] then 0 else AskWeight(asks[0]) + AsksWeight(asks[1..])
  }

  /** What the messages and requests still to be taken can cause. */
  function Weight(l: Link): nat {
    MessagesWeight(l.toConsumer) + AsksWeight(l.toProvider)
  }
}

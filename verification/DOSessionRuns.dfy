/** What every session of a provider and a consumer promises: the values converge, they are taken in
    order, and whatever is under way comes to an end. */
module DOSessionRuns {
  import opened Wrappers
  import opened DOModel
  import opened DORuns
  import opened DOInvariants
  import opened DORemotes
  import opened DOTargets
  import opened Packets
  import opened DOLink
  import opened DOLinkSteps
  import opened DOSessions
  import opened DOSessionMoves
  import L = LateJoin
  import R = LateJoinRuns

  lemma BeginsSound(e: Ends, s: Session)
    requires Begins(e, s)
    ensures Sound(e, s)
  {
    hide Invariant, Remotes, Targets, Recorded, Lined, Alone;
    var ps, pd :| DORuns.Reachable(s.p, ps, pd);
    var cs, cd :| DORuns.Reachable(s.c, cs, cd);
    InvariantReached(s.p, ps, pd);
    InvariantReached(s.c, cs, cd);
    RemotesReached(s.c, cs, cd);
    TargetsReached(s.c, cs, cd);
    RecordedReached(s.c, cs, cd);
    LinedReached(s.c, cs, cd);
  }

  lemma BeginsSeen(e: Ends, s: Session)
    requires Begins(e, s) && Targets(s.c.st)
    ensures SeenAs(e, s, LinkAt(e, s)) && L.Starting(LinkAt(e, s))
  {
    hide InSomeRun, HasLocalTarget, Of, DataPayload;
    var l := LinkAt(e, s);
    assert L.Last(l) == e.initial;
    assert L.Starting(l);
  }

  /** Every run of two services is seen as a run of the link. */
  lemma {:induction false} SessionIsLink(e: Ends, s: Session, moves: seq<Move>, start: Session)
      returns (l: L.Link, steps: seq<L.Step>)
    requires Begins(e, start) && Reached(e, s, moves, start)
    ensures L.Starting(LinkAt(e, start)) && L.Reachable(l, steps, LinkAt(e, start)) && SeenAs(e, s, l) && Sound(e, s)
    decreases |moves|
  {
    BeginsSound(e, start);
    assert Targets(start.c.st);
    hide Sound, SeenAs, L.Starting, Begins, LinkAt, Targets;
    BeginsSeen(e, start);
    if moves == [] {
      l, steps := LinkAt(e, start), [];
    } else {
      hide L.Reachable, Possible, After;
      var n := |moves| - 1;
      var t :| Reached(e, t, moves[..n], start) && Possible(e, t, moves[n]) && s == After(e, t, moves[n]);
      l, steps := SessionIsLink(e, t, moves[..n], start);
      l, steps := MoveSeen(e, t, l, steps, LinkAt(e, start), moves[n]);
    }
  }

  lemma SettledDrained(e: Ends, s: Session, l: L.Link)
    requires SeenAs(e, s, l)
    ensures Settled(e, s) <==> L.Drained(l)
    ensures l.known <==> e.obj in s.c.st.remoteIndex
  {
    hide HasLocalTarget, Of, TookAt, SourceAt;
  }

  /** Late-join convergence of the services: whatever else the two federates do, and in whatever
      order the source is reserved, the consumer joins, discovers and registers its target, once
      nothing is under way the consumer knows the source, and its value is the provider's exactly
      when something new was set since connecting or the values agreed to begin with. */
  lemma ServicesConverge(e: Ends, s: Session, moves: seq<Move>, start: Session)
    requires Begins(e, start) && Reached(e, s, moves, start) && Settled(e, s)
    ensures e.obj in s.c.st.remoteIndex
    ensures !L.NothingNew(e.onChange, start.provided, s.sets) ==> s.consumed == s.provided
    ensures s.consumed == s.provided <==>
      !L.NothingNew(e.onChange, start.provided, s.sets) || start.provided == L.Fallback(LinkAt(e, start))
  {
    hide Begins, Reached, Settled, L.Reachable, L.Starting, L.NothingNew, L.Fallback, L.Drained, ConsumerAt,
      ProviderAt, TookAt;
    var l, steps := SessionIsLink(e, s, moves, start);
    SettledDrained(e, s, l);
    R.Convergence(l, steps, LinkAt(e, start));
  }

  /** The consumer takes values in the order in which the provider's service handed their packets to
      the RTI, and these are the packets of the values set, in order, as far as handed over. */
  lemma ServicesInOrder(e: Ends, s: Session, moves: seq<Move>, start: Session) returns (marks: seq<nat>)
    requires Begins(e, start) && Reached(e, s, moves, start)
    ensures L.NonDecreasing(marks) && TookAt(e.initial, Of(s.p.sent, e.h), marks, s.took)
    ensures s.consumed == if s.took == [] then start.consumed else s.took[|s.took| - 1]
    ensures Of(s.p.sent, e.h) <= L.Submissions(e.onChange, start.provided, s.sets)
  {
    hide Begins, Reached, L.Reachable, L.Starting, L.NonDecreasing, L.Submissions, ConsumerAt, DataPayload;
    var l, steps := SessionIsLink(e, s, moves, start);
    R.ProviderOrder(l, steps, LinkAt(e, start));
    marks := l.taken;
  }

  lemma ReachedMore(e: Ends, s: Session, moves: seq<Move>, start: Session, move: Move)
    requires Reached(e, s, moves, start) && Possible(e, s, move)
    ensures Reached(e, After(e, s, move), moves + [move], start)
  {
    hide Possible, After;
    assert (moves + [move])[..|moves|] == moves;
  }

  lemma ValuesStay(e: Ends, s: Session, move: Move)
    requires Possible(e, s, move) && (move.Deliver? || move.Request?)
    ensures After(e, s, move).provided == s.provided && After(e, s, move).sets == s.sets
  {
    hide Operation, SaidBy, AsksOf, Next, StoredOf, ProvideSource, DiscoverSourceObject;
  }

  lemma {:induction false} Settles(e: Ends, s: Session, moves: seq<Move>, start: Session, l: L.Link)
    returns (end: Session, more: seq<Move>)
    requires Begins(e, start) && Reached(e, s, moves, start) && SeenAs(e, s, l) && Sound(e, s) && L.Ordered(l)
      && L.Converging(l)
    requires l.joined && l.registered && l.target && l.buffered == []
    ensures Reached(e, end, moves + more, start) && Settled(e, end) && end.provided == s.provided && end.sets == s.sets
    ensures forall move :: move in more ==> move.Deliver? || move.Request?
    decreases L.Weight(l)
  {
    hide Begins, Reached, SeenAs, Sound, L.Ordered, L.Converging, L.Weight, Settled, Delivered, Answered, L.TakeOne,
      L.AnswerOne, L.Carries, L.Last;
    SettledDrained(e, s, l);
    LinkSays(e, s, l);
    SeenChannels(e, s, l);
    if s.toConsumer == [] && s.toProvider == [] {
      end, more := s, [];
      assert moves + [] == moves;
    } else {
      var move := if s.toConsumer != [] then Deliver else Move.Request;
      var step := if s.toConsumer != [] then L.Take else L.Answer;
      if s.toConsumer != [] {
        DeliverSeen(e, s, l);
        R.TakeLightens(l);
      } else {
        RequestSeen(e, s, l);
        R.AnswerLightens(l);
      }
      SoundAfter(e, s, move);
      ValuesStay(e, s, move);
      R.OrderedStep(l, step);
      R.ConvergingStep(l, step);
      ReachedMore(e, s, moves, start, move);
      end, more := Settles(e, After(e, s, move), moves + [move], start, L.Next(l, step));
      assert moves + [move] + more == moves + ([move] + more);
      more := [move] + more;
    }
  }

  /** From every state in which both federates are up, the consumer has its target and everything
      submitted was handed over, delivering and answering what is under way comes to an end, and
      if something new was set since connecting the consumer then holds the provider's value. */
  lemma HandedOverSettles(e: Ends, s: Session, moves: seq<Move>, start: Session) returns (end: Session, more: seq<Move>)
    requires Begins(e, start) && Reached(e, s, moves, start)
    requires s.c.joined && e.h in s.p.st.usable && HasLocalTarget(s.c.st.localTargets, e.name, e.conn)
      && Of(s.p.st.transmits, e.h) == []
    ensures Reached(e, end, moves + more, start) && Settled(e, end) && end.provided == s.provided
    ensures forall move :: move in more ==> move.Deliver? || move.Request?
    ensures !L.NothingNew(e.onChange, start.provided, s.sets) ==> end.consumed == s.provided
  {
    hide Begins, Reached, Settled, SeenAs, Sound, L.Reachable, L.Starting, L.Ordered, L.Converging, L.Submitted,
      L.NothingNew, HasLocalTarget, Of;
    var l, steps := SessionIsLink(e, s, moves, start);
    R.ReachedInvariants(l, steps, LinkAt(e, start));
    SeenUp(e, s, l);
    end, more := Settles(e, s, moves, start, l);
    ServicesConverge(e, end, moves + more, start);
  }

  lemma LastMove(e: Ends, s: Session, moves: seq<Move>, start: Session, m: Move) returns (t: Session, n: nat)
    requires Reached(e, s, moves, start) && moves != []
    ensures n == |moves| - 1
    ensures Reached(e, t, moves[..n], start) && Possible(e, t, moves[n]) && s == After(e, t, moves[n])
    ensures m in moves ==> m in moves[..n] || m == moves[n]
  {
    hide Possible, After;
    n := |moves| - 1;
    t :| Reached(e, t, moves[..n], start) && Possible(e, t, moves[n]) && s == After(e, t, moves[n]);
  }

  lemma AtStart(e: Ends, s: Session, start: Session)
    requires Reached(e, s, [], start)
    ensures s == start
  {
  }

  /** A target that the consumer's federate registered during the session is registered ever after. */
  lemma {:induction false} RegisteredIsWanted(e: Ends, s: Session, moves: seq<Move>, start: Session)
    requires Begins(e, start) && Reached(e, s, moves, start)
    requires AtConsumer(RegisterT(e.name, e.conn)) in moves || Wanted(e, start.c.st)
    ensures Wanted(e, s.c.st)
    decreases |moves|
  {
    hide *;
    if moves == [] {
      AtStart(e, s, start);
    } else {
      var t, n := LastMove(e, s, moves, start, AtConsumer(RegisterT(e.name, e.conn)));
      var l, steps := SessionIsLink(e, t, moves[..n], start);
      if AtConsumer(RegisterT(e.name, e.conn)) in moves[..n] || Wanted(e, start.c.st) {
        RegisteredIsWanted(e, t, moves[..n], start);
      }
      WantedMove(e, t, moves[n]);
    }
  }

  lemma WantedMove(e: Ends, s: Session, move: Move)
    requires Sound(e, s) && Possible(e, s, move)
    ensures Wanted(e, s.c.st) || move == AtConsumer(RegisterT(e.name, e.conn)) ==> Wanted(e, After(e, s, move).c.st)
  {
    SoundParts(e, s);
    hide Sound, Invariant, Recorded, Lined, Operation, SaidBy, AsksOf, StoredOf, ProvideSource, DiscoverSourceObject,
      Next;
    if move.AtConsumer? {
      NothingStored(e, s, move.step);
      hide After, ForMember;
      RegistrationsStay(s.c, move.step);
    } else if move.Deliver? {
      if !s.toConsumer[0].SaidObject? {
        RegistrationsStay(s.c, SourceUpdate(e.obj, AttributesOf(e, s.toConsumer[0])));
      }
    }
  }

  lemma SoundParts(e: Ends, s: Session)
    requires Sound(e, s)
    ensures Invariant(s.c) && Recorded(s.c.st) && Lined(s.c)
  {
    hide Invariant, Remotes, Targets, Recorded, Lined, Alone;
  }

  /** Registrations of targets are kept for good. */
  lemma RegistrationsStay(r: Run, step: Step)
    requires Invariant(r)
    ensures r.st.persistentTargets <= Next(r, step).st.persistentTargets
    ensures step.RegisterT? ==>
      exists q :: q in Next(r, step).st.persistentTargets && q.name == step.name && q.conn == step.conn
  {
    if step.Process? {
      hide Invariant, ProcessBuffers;
      ProcessedRecords(r);
    } else if step.RegisterT? {
      var q := TargetRegistration(step.name, step.conn, r.st.nextTarget);
      assert Next(r, step).st.persistentTargets == r.st.persistentTargets + [q];
    } else if step.ResetAll? || step.Join? {
      hide Invariant, SavedLast;
    } else {
      hide Invariant, Operation;
      OthersKeepRecords(r.st, step);
    }
  }

  /** The consumer's service processes its buffers: its target is then local. */
  lemma TargetBecomesLocal(e: Ends, s: Session) returns (t: Session)
    requires Sound(e, s) && s.c.joined && Wanted(e, s.c.st)
    ensures Possible(e, s, AtConsumer(Process)) && t == After(e, s, AtConsumer(Process))
    ensures t.p == s.p && t.c.joined && t.provided == s.provided && t.sets == s.sets
    ensures HasLocalTarget(t.c.st.localTargets, e.name, e.conn)
  {
    SoundParts(e, s);
    NothingStored(e, s, Process);
    t := After(e, s, AtConsumer(Process));
    var q :| q in s.c.st.persistentTargets && q.name == e.name && q.conn == e.conn;
    hide After, Sound, Invariant, Lined, Recorded, HasLocalTarget, Operation, AsksOf, ForMember;
    ProcessedIsLocal(s.c, q);
  }

  /** The provider's service processes its buffers: everything submitted for the source is then handed
      over. */
  lemma SubmittedIsHandedOver(e: Ends, s: Session) returns (t: Session)
    requires Sound(e, s) && e.h in s.p.st.usable
    ensures Possible(e, s, AtProvider(Process, false)) && t == After(e, s, AtProvider(Process, false))
    ensures t.c == s.c && t.provided == s.provided && t.sets == s.sets
    ensures e.h in t.p.st.usable && Of(t.p.st.transmits, e.h) == []
  {
    hide *;
    Parts(e, s);
    UsableJoinedIn(e, s);
    t := ProcessMove(e, s);
    Processed(s.p);
    OfSplit(s.p.st.usable, s.p.st.transmits, e.h);
  }

  lemma ProcessMove(e: Ends, s: Session) returns (t: Session)
    requires s.p.joined
    ensures Possible(e, s, AtProvider(Process, false)) && t == After(e, s, AtProvider(Process, false))
    ensures t.c == s.c && t.provided == s.provided && t.sets == s.sets && t.p == Next(s.p, Process)
  {
    hide SaidBy, Operation, Next;
    t := After(e, s, AtProvider(Process, false));
  }

  lemma UsableJoinedIn(e: Ends, s: Session)
    requires Sound(e, s) && e.h in s.p.st.usable
    ensures s.p.joined
  {
    hide Invariant;
    var i := UsableJoined(s.p, e.h);
  }

  /** From every state in which both federates are up and the consumer's federate has registered a
      target for the member, before joining or at any time after, processing the buffers, delivering
      and answering comes to an end, and if something new was set since connecting the consumer then
      holds the provider's value. */
  lemma ServicesSettle(e: Ends, s: Session, moves: seq<Move>, start: Session) returns (end: Session, more: seq<Move>)
    requires Begins(e, start) && Reached(e, s, moves, start)
    requires s.c.joined && e.h in s.p.st.usable && Wanted(e, s.c.st)
    ensures Reached(e, end, moves + more, start) && Settled(e, end) && end.provided == s.provided
    ensures forall move :: move in more ==>
      move.Deliver? || move.Request? || move == AtConsumer(Process) || move == AtProvider(Process, false)
    ensures !L.NothingNew(e.onChange, start.provided, s.sets) ==> end.consumed == s.provided
  {
    hide Begins, Reached, Settled, Sound, SeenAs, Possible, After, L.Reachable, L.NothingNew, HasLocalTarget, Of,
      Wanted;
    var l, steps := SessionIsLink(e, s, moves, start);
    var a := TargetBecomesLocal(e, s);
    ReachedMore(e, s, moves, start, AtConsumer(Process));
    l, steps := SessionIsLink(e, a, moves + [AtConsumer(Process)], start);
    var b := SubmittedIsHandedOver(e, a);
    ReachedMore(e, a, moves + [AtConsumer(Process)], start, AtProvider(Process, false));
    var rest;
    end, rest := HandedOverSettles(e, b, moves + [AtConsumer(Process)] + [AtProvider(Process, false)], start);
    more := [AtConsumer(Process)] + [AtProvider(Process, false)] + rest;
    assert moves + [AtConsumer(Process)] + [AtProvider(Process, false)] + rest == moves + more;
  }

  lemma SeenUp(e: Ends, s: Session, l: L.Link)
    requires SeenAs(e, s, l)
    ensures l.joined == s.c.joined && (l.registered <==> e.h in s.p.st.usable)
      && l.buffered == Of(s.p.st.transmits, e.h)
    ensures l.target <==> HasLocalTarget(s.c.st.localTargets, e.name, e.conn)
  {
    hide HasLocalTarget, Of, TookAt, SourceAt;
  }

  lemma EnteredRun()
    ensures Next(Start({}), EnterInitFederate) == Start({}).(st := Start({}).st.(phase := InitFederate))
    ensures Enabled(Start({}), EnterInitFederate)
  {
  }

  lemma JoinedIs()
    ensures Joined() == Start({}).(st := Start({}).st.(phase := InitFederate), joined := true)
    ensures Enabled(Next(Start({}), EnterInitFederate), Join)
  {
    EnteredRun();
  }

  lemma JoinedRun()
    ensures InSomeRun(Start({})) && InSomeRun(Joined())
    ensures Joined() == Start({}).(st := Start({}).st.(phase := InitFederate), joined := true)
  {
    JoinedIs();
    EnteredRun();
    assert DORuns.Reachable(Start({}), [], {});
    hide Next, Enabled, DORuns.Reachable, Start;
    DORuns.ReachedMore(Start({}), [], {}, EnterInitFederate);
    DORuns.ReachedMore(Next(Start({}), EnterInitFederate), [] + [EnterInitFederate], {}, Join);
  }

  lemma RegisteredIs(name: string, conn: string)
    ensures Registered(name, conn) == Joined().(st := RegisterSource(Joined().st, name, conn),
      issued := map[1 := (name, conn)])
    ensures Enabled(Joined(), Register(name, conn))
  {
    JoinedIs();
    hide Joined;
  }

  lemma RegisteredRun(name: string, conn: string)
    ensures InSomeRun(Registered(name, conn))
  {
    JoinedRun();
    RegisteredIs(name, conn);
    var steps, discoverers :| DORuns.Reachable(Joined(), steps, discoverers);
    hide DORuns.Reachable, Joined, Next, Enabled;
    DORuns.ReachedMore(Joined(), steps, discoverers, Register(name, conn));
  }

  /** Sessions do begin: with a provider that registered after joining, and a consumer that is offline. */
  lemma SomeSession(name: string, conn: string, v: Payload)
    ensures Begins(Ends(1, 7, name, conn, true, []), Session(Registered(name, conn), Start({}), v, [], [], [], false,
      [], []))
  {
    JoinedRun();
    RegisteredRun(name, conn);
    RegisteredIs(name, conn);
    hide Joined, Registered, InSomeRun;
  }
}

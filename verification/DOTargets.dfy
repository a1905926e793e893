/** What becomes of the targets registered: in every run each is persistent, and while joined it is
    either buffered or local; and the callbacks of targets are told apart. */
module DOTargets {
  import opened Wrappers
  import opened DOModel
  import opened DORuns
  import opened DOInvariants

  /** Registrations are kept for good and told apart by their handles; those buffered are among them,
      and a callback stored for a name and connection type is that of a registration of these. */
  ghost predicate Recorded(st: State) {
    && (forall r :: r in st.persistentTargets ==> r.handle < st.nextTarget)
    && (forall r, q :: r in st.persistentTargets && q in st.persistentTargets && r.handle == q.handle ==> r == q)
    && (forall r :: r in st.bufferedTargets ==> r in st.persistentTargets)
    && AllRecorded(st.callbacks, st.persistentTargets)
  }

  ghost predicate AllRecorded(callbacks: map<(string, string), Handle>, rs: seq<TargetRegistration>) {
    forall k :: k in callbacks ==> TargetRegistration(k.1, k.0, callbacks[k]) in rs
  }

  lemma OthersKeepRecords(st: State, step: Step)
    requires !step.Process? && !step.ResetAll? && !step.RegisterT? && !step.Join?
    ensures var t := Operation(st, step).st;
      && t.persistentTargets == st.persistentTargets && t.bufferedTargets == st.bufferedTargets
      && t.nextTarget == st.nextTarget && t.callbacks == st.callbacks
  {
    hide FindLocal, LocalHandles, RegisteredHandles, WithoutSource, WithoutRegistration, FindUuid, FindObject,
      FindRemote, HasLocalTarget, RunCallback;
  }

  lemma {:induction false} RecordedCallbacks(callbacks: map<(string, string), Handle>, rs: seq<TargetRegistration>,
      all: seq<TargetRegistration>)
    requires AllRecorded(callbacks, all) && forall r :: r in rs ==> r in all
    ensures AllRecorded(WithCallbacks(callbacks, rs), all)
  {
    if rs != [] {
      RecordedCallbacks(callbacks, rs[..|rs| - 1], all);
      assert rs[|rs| - 1] in rs;
    }
  }

  lemma ProcessedRecords(r: Run)
    requires Invariant(r)
    ensures var st, t := r.st, ProcessBuffers(r.st).st;
      && t.persistentTargets == st.persistentTargets && t.bufferedTargets == [] && t.nextTarget == st.nextTarget
      && t.callbacks == WithCallbacks(st.callbacks, st.bufferedTargets)
  {
    UsableHaveObjects(r);
    hide *;
    ProcessSummary(r.st);
    CreateTargetsSummary(r.st, r.st.bufferedTargets);
  }

  lemma RecordedStep(r: Run, step: Step)
    requires Invariant(r) && Recorded(r.st) && Enabled(r, step)
    ensures Recorded(Next(r, step).st)
  {
    if step.Process? {
      hide Invariant, WithCallbacks, ProcessBuffers, AllRecorded;
      ProcessedRecords(r);
      RecordedCallbacks(r.st.callbacks, r.st.bufferedTargets, r.st.persistentTargets);
    } else if step.ResetAll? || step.Join? || step.RegisterT? {
      hide Invariant, SavedLast;
    } else {
      hide Invariant, Operation, AllRecorded;
      OthersKeepRecords(r.st, step);
    }
  }

  lemma {:induction false} RecordedReached(r: Run, steps: seq<Step>, discoverers: set<string>)
    requires Reachable(r, steps, discoverers)
    ensures Recorded(r.st)
    decreases |steps|
  {
    if steps != [] {
      var n := |steps| - 1;
      var q :| Reachable(q, steps[..n], discoverers) && Enabled(q, steps[n]) && r == Next(q, steps[n]);
      hide Recorded, Next, Enabled, Invariant;
      RecordedReached(q, steps[..n], discoverers);
      InvariantReached(q, steps[..n], discoverers);
      RecordedStep(q, steps[n]);
    }
  }

  /** No two names or connection types share a callback. */
  lemma CallbacksApart(r: Run, steps: seq<Step>, discoverers: set<string>, a: (string, string), b: (string, string))
    requires Reachable(r, steps, discoverers) && a in r.st.callbacks && b in r.st.callbacks
    ensures r.st.callbacks[a] == r.st.callbacks[b] ==> a == b
  {
    hide Reachable;
    RecordedReached(r, steps, discoverers);
  }

  // ----- Where a target registered is -----

  /** The names and connection types that targets were registered for, in order. */
  function Targeted(steps: seq<Step>): seq<(string, string)> {
    if steps == [] then [] else
      var n := |steps| - 1;
      Targeted(steps[..n]) + if steps[n].RegisterT? then [(steps[n].name, steps[n].conn)] else []
  }

  /** The registrations of these: the k-th gets the k-th handle. */
  function Numbered(asked: seq<(string, string)>): (r: seq<TargetRegistration>)
    ensures |r| == |asked|
    ensures forall i :: 0 <= i < |asked| ==> r[i] == TargetRegistration(asked[i].0, asked[i].1, i + 1)
  {
    seq(|asked|, i requires 0 <= i < |asked| => TargetRegistration(asked[i].0, asked[i].1, i + 1))
  }

  /** What the local targets were registered as. */
  function Origins(ts: seq<Target>): (r: seq<TargetRegistration>)
    ensures |r| == |ts|
    ensures forall i :: 0 <= i < |ts| ==> r[i] == TargetRegistration(ts[i].name, ts[i].conn, ts[i].handle)
  {
    seq(|ts|, i requires 0 <= i < |ts| => TargetRegistration(ts[i].name, ts[i].conn, ts[i].handle))
  }

  /** While joined the local targets followed by those buffered are the registrations, each once and in
      order; before joining there are neither. */
  ghost predicate Lined(r: Run) {
    && (r.joined ==> !r.st.phase.Offline?)
    && Origins(r.st.localTargets) + r.st.bufferedTargets == if r.joined then r.st.persistentTargets else []
  }

  lemma OthersKeepLocals(st: State, step: Step)
    requires !step.Process? && !step.ResetAll?
    ensures Operation(st, step).st.localTargets == st.localTargets
    ensures !(step.EnterInitFederate? || step.GoOnline?) ==> Operation(st, step).st.phase == st.phase
  {
    hide FindLocal, LocalHandles, RegisteredHandles, WithoutSource, WithoutRegistration, FindUuid, FindObject,
      FindRemote, HasLocalTarget, RunCallback;
  }

  lemma ProcessedLocalTargets(r: Run)
    requires Invariant(r)
    ensures var st, t := r.st, ProcessBuffers(r.st).st;
      && t.localTargets == st.localTargets + CreatedTargets(st.bufferedTargets, st.nextUuid) && t.phase == st.phase
  {
    UsableHaveObjects(r);
    hide *;
    ProcessSummary(r.st);
    CreateTargetsSummary(r.st, r.st.bufferedTargets);
  }

  lemma OriginsOfCreated(ts: seq<Target>, rs: seq<TargetRegistration>, uuid: Uuid)
    ensures Origins(ts + CreatedTargets(rs, uuid)) == Origins(ts) + rs
  {
  }

  lemma LinedProcess(r: Run)
    requires Invariant(r) && Lined(r)
    ensures Lined(Next(r, Process))
  {
    ProcessedRecords(r);
    ProcessedLocalTargets(r);
    hide Invariant, ProcessBuffers, Origins, CreatedTargets, WithCallbacks;
    OriginsOfCreated(r.st.localTargets, r.st.bufferedTargets, r.st.nextUuid);
    assert Origins(r.st.localTargets) + r.st.bufferedTargets + [] == Origins(r.st.localTargets) + r.st.bufferedTargets;
  }

  lemma LinedMore(r: Run, step: Step)
    requires Lined(r) && Enabled(r, step) && (step.Join? || step.RegisterT?)
    ensures Lined(Next(r, step))
  {
    hide Origins;
    var ts, bs := Origins(r.st.localTargets), r.st.bufferedTargets;
    if step.Join? {
      assert ts == [] && bs == [];
      assert [] + ([] + r.st.persistentTargets) == r.st.persistentTargets;
    } else {
      var q := TargetRegistration(step.name, step.conn, r.st.nextTarget);
      assert ts + (bs + [q]) == ts + bs + [q];
    }
  }

  lemma LinedStep(r: Run, step: Step)
    requires Invariant(r) && Lined(r) && Enabled(r, step)
    ensures Lined(Next(r, step))
  {
    if step.Process? {
      LinedProcess(r);
    } else if step.Join? || step.RegisterT? {
      LinedMore(r, step);
    } else if step.ResetAll? {
      hide Invariant, SavedLast;
    } else {
      hide Invariant, Operation, Origins;
      OthersKeepRecords(r.st, step);
      OthersKeepLocals(r.st, step);
    }
  }

  /** The persistent registrations are those asked for. */
  ghost predicate Counted(st: State, asked: seq<(string, string)>) {
    st.persistentTargets == Numbered(asked) && st.nextTarget == |asked| + 1
  }

  lemma CountedMore(st: State, asked: seq<(string, string)>, name: string, conn: string)
    requires Counted(st, asked)
    ensures Counted(RegisterTarget(st, name, conn), asked + [(name, conn)])
  {
  }

  /** Only registering a target changes the registrations of targets. */
  lemma RecordsStay(r: Run, step: Step)
    requires Invariant(r) && !step.RegisterT?
    ensures var n := Next(r, step).st;
      n.persistentTargets == r.st.persistentTargets && n.nextTarget == r.st.nextTarget
  {
    if step.Process? {
      ProcessedRecords(r);
      hide Invariant, ProcessBuffers;
    } else if step.ResetAll? || step.Join? {
      hide Invariant, SavedLast;
    } else {
      OthersKeepRecords(r.st, step);
      hide Invariant, Operation;
    }
  }

  lemma CountedStep(r: Run, step: Step, asked: seq<(string, string)>)
    requires Invariant(r) && Counted(r.st, asked) && Enabled(r, step)
    ensures Counted(Next(r, step).st, asked + if step.RegisterT? then [(step.name, step.conn)] else [])
  {
    if step.RegisterT? {
      CountedMore(r.st, asked, step.name, step.conn);
      hide Counted, RegisterTarget, Invariant;
    } else {
      RecordsStay(r, step);
      hide Invariant, Next, Enabled, Numbered;
      assert asked + [] == asked;
    }
  }

  lemma {:induction false} LinedReached(r: Run, steps: seq<Step>, discoverers: set<string>)
    requires Reachable(r, steps, discoverers)
    ensures Lined(r) && Counted(r.st, Targeted(steps))
    decreases |steps|
  {
    if steps != [] {
      var n := |steps| - 1;
      var q :| Reachable(q, steps[..n], discoverers) && Enabled(q, steps[n]) && r == Next(q, steps[n]);
      hide Lined, Counted, Next, Enabled, Invariant;
      LinedReached(q, steps[..n], discoverers);
      InvariantReached(q, steps[..n], discoverers);
      LinedStep(q, steps[n]);
      CountedStep(q, steps[n], Targeted(steps[..n]));
    }
  }

  lemma OnceInLine(a: seq<TargetRegistration>, b: seq<TargetRegistration>, asked: seq<(string, string)>, k: nat)
    requires a + b == Numbered(asked) && k < |asked|
    ensures var q := Numbered(asked)[k];
      if k < |a| then a[k] == q && q !in b else k - |a| < |b| && b[k - |a|] == q && q !in a
  {
    var all := Numbered(asked);
    assert forall i :: 0 <= i < |a| ==> a[i] == all[i];
    assert forall i :: 0 <= i < |b| ==> b[i] == all[|a| + i];
  }

  /** Where the target registered k-th is, in any run: it has the k-th handle and is persistent under the
      name and connection type it was registered for; while joined it is either local or buffered, once;
      and when the buffers are processed, it is local and has a callback. */
  lemma TargetPartition(r: Run, steps: seq<Step>, discoverers: set<string>, k: nat)
    requires Reachable(r, steps, discoverers) && k < |Targeted(steps)|
    ensures var q := TargetRegistration(Targeted(steps)[k].0, Targeted(steps)[k].1, k + 1);
      var locals, buffered := Origins(r.st.localTargets), r.st.bufferedTargets;
      && k < |r.st.persistentTargets| == |Targeted(steps)| && r.st.persistentTargets[k] == q
      && (r.joined ==> if k < |locals| then locals[k] == q && q !in buffered
            else k - |locals| < |buffered| && buffered[k - |locals|] == q && q !in locals)
      && (!r.joined ==> locals == [] && buffered == [])
  {
    hide Reachable;
    LinedReached(r, steps, discoverers);
    hide Targeted, Origins;
    var locals, buffered := Origins(r.st.localTargets), r.st.bufferedTargets;
    if r.joined { OnceInLine(locals, buffered, Targeted(steps), k); }
    hide Numbered;
  }

  /** A target registered by a federate that joined is local once its buffers are processed. */
  lemma RegisteredIsLocal(r: Run, q: TargetRegistration)
    requires Lined(r) && r.joined && q in r.st.persistentTargets && r.st.bufferedTargets == []
    ensures HasLocalTarget(r.st.localTargets, q.name, q.conn)
  {
    var ts := r.st.localTargets;
    assert Origins(ts) + [] == Origins(ts);
    var i :| 0 <= i < |Origins(ts)| && Origins(ts)[i] == q;
    assert ts[i].name == q.name && ts[i].conn == q.conn;
  }

  /** Processing the buffers leaves none buffered. */
  lemma ProcessedIsLocal(r: Run, q: TargetRegistration)
    requires Invariant(r) && Lined(r) && Enabled(r, Process) && q in r.st.persistentTargets
    ensures HasLocalTarget(Next(r, Process).st.localTargets, q.name, q.conn)
  {
    LinedStep(r, Process);
    ProcessedRecords(r);
    var n := Next(r, Process);
    assert n.st.bufferedTargets == [] && n.st.persistentTargets == r.st.persistentTargets && n.joined by {
      hide Invariant, ProcessBuffers, Lined;
    }
    hide Next, Invariant, Lined, HasLocalTarget;
    RegisteredIsLocal(n, q);
  }
}

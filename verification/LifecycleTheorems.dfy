/** Slots, sandboxes and teardowns over whole runs. */
module LifecycleTheorems {
  import opened Common
  import opened Bindings
  import opened Teardown
  import opened Lifecycle
  import opened LifecycleInvariant
  import opened LifecycleSafety

  // ----- slots

  /** About to execute the clamping store of `Release`. */
  predicate AtClamp(pc: Pc) {
    pc.GiveBackClamp? || (pc.Tearing? && pc.prog != [] && pc.prog[0].Clamp?)
  }

  /** In every state of every run the counter counts exactly the slots held by requests, by
      registered sessions and by removed sessions that still owe theirs; it never leaves its
      range, and the clamp of `Release` is never reached. */
  lemma SlotConservation(run: seq<State>, n: nat)
    requires IsRun(run) && n < |run|
    ensures EverySlotOwned(run[n])
  {
    RunInvariant(run, n);
    InvariantOwnsSlots(run[n]);
  }

  ghost predicate EverySlotOwned(st: State) {
    && st.sh.active == |Holders(st.threads)| + |st.sh.sessions| + |Owing(st)|
    && 0 <= st.sh.active <= st.max
    && forall t <- st.threads :: !AtClamp(st.threads[t])
  }

  lemma NoClampAhead(st: State)
    requires ThreadsOk(st)
    ensures forall t <- st.threads :: !AtClamp(st.threads[t])
  {
    forall t | t in st.threads ensures !AtClamp(st.threads[t]) {
      assert PcOk(st, t, st.threads[t]);
    }
  }

  lemma InvariantOwnsSlots(st: State)
    requires ThreadsOk(st) && SlotsConserved(st)
    ensures EverySlotOwned(st)
  {
    NoClampAhead(st);
    assert |st.sh.sessions| == |st.sh.sessions.Keys|;
  }

  /** The registry never outgrows the cap: an insertion always finds room and a new id. */
  lemma RegistryWithinCap(run: seq<State>, n: nat)
    requires IsRun(run) && n < |run|
    ensures |run[n].sh.sessions| <= run[n].max
    ensures forall t <- run[n].threads | run[n].threads[t].Insert? ::
      |run[n].sh.sessions| < run[n].max && run[n].threads[t].id !in run[n].sh.sessions
  {
    RunInvariant(run, n);
    var st := run[n];
    assert |st.sh.sessions| == |st.sh.sessions.Keys|;
    forall t | t in st.threads && st.threads[t].Insert?
      ensures |st.sh.sessions| < st.max && st.threads[t].id !in st.sh.sessions
    {
      assert t in Holders(st.threads) && PcOk(st, t, st.threads[t]);
    }
  }

  // ----- sandboxes

  /** Slot already returned, sandbox not yet destroyed. */
  function Draining(st: State): set<SessionId> {
    Dying(st) - Owing(st)
  }

  lemma OwingStillDies(st: State)
    requires Structure(st)
    ensures Owing(st) <= Dying(st)
  {
    forall s | s in Owing(st) ensures s in Dying(st) {
      WaitsForSuccessor(st, ReturnSlot(s));
    }
  }

  /** A session's later teardown steps cannot overtake its earlier ones. */
  lemma WaitsForSuccessor(st: State, i: Instr)
    requires ThreadsOk(st) && Waiting(st, i) && !i.Kill?
    ensures Waiting(st, Successor(i)) && Successor(i) !in st.h.log
  {
    var t := st.h.removedBy[i.id];
    assert PcOk(st, t, st.threads[t]);
    var prog := Program(st.threads[t]);
    HeadHasNoPredecessor(prog, i);
    assert Successor(i) in prog;
  }

  lemma {:induction false} BootImage(threads: map<ThreadId, Pc>, boots: set<ThreadId>)
    requires boots <= threads.Keys
    ensures |set t | t in boots :: BootId(threads[t])| <= |boots|
  {
    if boots != {} {
      var t :| t in boots;
      BootImage(threads, boots - {t});
      assert (set u | u in boots :: BootId(threads[u]))
          == (set u | u in boots - {t} :: BootId(threads[u])) + {BootId(threads[t])};
    }
  }

  lemma BootIdsBound(threads: map<ThreadId, Pc>)
    ensures |BootIds(threads)| <= |Holders(threads)|
  {
    BootImage(threads, Booting(threads));
    SubsetSize(Booting(threads), Holders(threads));
  }

  lemma UnionSize<T>(a: set<T>, b: set<T>)
    ensures |a + b| <= |a| + |b|
  {
    assert a + b == a + (b - a);
    SubsetSize(b - a, b);
  }

  /** Sandboxes that exist exceed the cap by at most those being destroyed after their slot
      went back. */
  lemma SandboxBound(run: seq<State>, n: nat)
    requires IsRun(run) && n < |run|
    ensures |run[n].sh.running| <= run[n].sh.active + |Draining(run[n])| <= run[n].max + |Draining(run[n])|
  {
    RunInvariant(run, n);
    var st := run[n];
    BootIdsBound(st.threads);
    OwingStillDies(st);
    UnionSize(BootIds(st.threads), st.sh.sessions.Keys);
    UnionSize(BootIds(st.threads) + st.sh.sessions.Keys, Dying(st));
    assert Dying(st) == Owing(st) + Draining(st) && Owing(st) !! Draining(st);
  }

  // ----- teardown

  /** Once a session has left the registry. */
  ghost predicate TornDownOnce(st: State, s: SessionId)
    requires s in st.h.removedBy
  {
    Unbind(s) in st.h.log && ReturnSlot(s) in st.h.log && Kill(s) in st.h.log
  }

  /** Nothing of `s` is left to do for the thread that removed it. */
  predicate RemoverDone(st: State, s: SessionId)
    requires s in st.h.removedBy
  {
    st.h.removedBy[s] in st.threads && forall i <- Program(st.threads[st.h.removedBy[s]]) :: i.id != s
  }

  /** However the removers race: no callback and no sandbox destruction of a session ever runs
      twice, each session's steps run in order and only after its removal, and all have run
      exactly when the thread that removed it is done with it. */
  lemma TeardownExactlyOnce(run: seq<State>, n: nat)
    requires IsRun(run) && n < |run|
    ensures var st := run[n];
      && Distinct(st.h.log)
      && (forall i <- st.h.log :: i.id in st.h.removedBy && i.id !in st.sh.sessions)
      && (forall s :: (Kill(s) in st.h.log ==> ReturnSlot(s) in st.h.log)
                   && (ReturnSlot(s) in st.h.log ==> Unbind(s) in st.h.log))
      && (forall s <- st.h.removedBy :: RemoverDone(st, s) <==> TornDownOnce(st, s))
  {
    RunInvariant(run, n);
    var st := run[n];
    forall s | s in st.h.removedBy
      ensures RemoverDone(st, s) <==> TornDownOnce(st, s)
      ensures Kill(s) in st.h.log ==> ReturnSlot(s) in st.h.log
      ensures ReturnSlot(s) in st.h.log ==> Unbind(s) in st.h.log
    {
      RemovedSession(st, s);
    }
  }

  lemma RemovedSession(st: State, s: SessionId)
    requires Structure(st) && s in st.h.removedBy
    ensures RemoverDone(st, s) <==> TornDownOnce(st, s)
    ensures Kill(s) in st.h.log ==> ReturnSlot(s) in st.h.log
    ensures ReturnSlot(s) in st.h.log ==> Unbind(s) in st.h.log
  {
    assert Accounted(st, Unbind(s)) && Accounted(st, ReturnSlot(s)) && Accounted(st, Kill(s));
    if Waiting(st, Unbind(s)) {
      WaitsForSuccessor(st, Unbind(s));
    }
    if Waiting(st, ReturnSlot(s)) {
      WaitsForSuccessor(st, ReturnSlot(s));
    }
    var t := st.h.removedBy[s];
    assert PcOk(st, t, st.threads[t]);
    var prog := Program(st.threads[t]);
    if TornDownOnce(st, s) {
      forall i | i in prog ensures i.id != s {
        assert i !in st.h.log;
      }
    }
  }

  // ----- histories only grow

  /** Removal is final and forgets nobody. */
  ghost predicate Grows(st: State, st': State) {
    && st.h.creator.Keys <= st'.h.creator.Keys
    && (forall s <- st.h.removedBy :: s in st'.h.removedBy && st'.h.removedBy[s] == st.h.removedBy[s])
    && (forall s <- st.sh.sessions ::
          s in st'.h.removedBy || (s in st'.sh.sessions && st'.sh.sessions[s] == st.sh.sessions[s]))
    && st.h.log <= st'.h.log
    && st.max == st'.max && st.now <= st'.now
  }

  lemma TakeGrows(st: State, t: ThreadId, ids: seq<SessionId>, prog: seq<Instr>, reaper: bool)
    requires RegistryOk(st) && forall s <- ids :: s in st.sh.sessions
    ensures Grows(st, Take(st, t, ids, prog, reaper))
  {
  }

  lemma TearGrows(st: State, t: ThreadId, prog: seq<Instr>, reaper: bool)
    ensures Grows(st, TearStep(st, t, prog, reaper))
  {
  }

  lemma InsertGrows(st: State, t: ThreadId, d: DeviceId, id: SessionId, expires: int)
    requires PcOk(st, t, Insert(d, id, expires))
    ensures Grows(st, InsertStep(st, t, d, id, expires))
  {
  }

  lemma StepGrows(st: State, t: ThreadId, c: Choice)
    requires Structure(st) && CanGo(st, t, c)
    ensures Grows(st, Step(st, t, c))
  {
    match st.threads[t]
    case Tearing(prog, reaper) => TearGrows(st, t, prog, reaper);
    case DestroyCall(id) =>
      if id in st.sh.sessions {
        TakeGrows(st, t, [id], Single(id), false);
      }
    case ReaperLock(_) => TakeGrows(st, t, c.order, OneByOne(c.order), true);
    case AwaitReaper => TakeGrows(st, t, c.order, CallbacksFirst(c.order), false);
    case Insert(d, id, expires) =>
      assert PcOk(st, t, st.threads[t]);
      InsertGrows(st, t, d, id, expires);
    case _ =>
  }

  lemma GrowsOn(a: State, b: State, c: State)
    requires Grows(a, b) && Grows(b, c)
    ensures Grows(a, c)
  {
  }

  lemma NextGrows(st: State, st': State)
    requires Structure(st) && Follows(st, st')
    ensures Grows(st, st')
  {
    var a :| Enabled(st, a) && st' == Next(st, a);
    if a.Go? {
      StepGrows(st, a.t, a.c);
    }
  }

  lemma StepAtGrows(run: seq<State>, n: nat)
    requires IsRun(run) && n + 1 < |run|
    ensures Grows(run[n], run[n + 1])
  {
    RunInvariant(run, n);
    assert StepAt(run, n);
    NextGrows(run[n], run[n + 1]);
  }

  lemma {:induction false} RunGrows(run: seq<State>, m: nat, n: nat)
    requires IsRun(run) && m <= n < |run|
    ensures Grows(run[m], run[n])
  {
    if m < n {
      RunGrows(run, m, n - 1);
      StepAtGrows(run, n - 1);
      GrowsOn(run[m], run[n - 1], run[n]);
    }
  }

  /** A session that was ever in the registry is still there, unchanged, or was removed by one
      thread for good. */
  lemma RemovedAtMostOnce(run: seq<State>, m: nat, n: nat, s: SessionId)
    requires IsRun(run) && m <= n < |run|
    requires s in run[m].sh.sessions || s in run[m].h.removedBy
    ensures (s in run[n].sh.sessions) != (s in run[n].h.removedBy)
    ensures s in run[m].h.removedBy ==> s in run[n].h.removedBy && run[n].h.removedBy[s] == run[m].h.removedBy[s]
  {
    RunGrows(run, m, n);
    RunInvariant(run, n);
  }

  // ----- why a session leaves the registry

  /** A reaper holds a clock reading that is not in the future. */
  ghost predicate ReadingsPast(st: State) {
    forall t <- st.threads | st.threads[t].ReaperLock? :: st.threads[t].at <= st.now
  }

  lemma StepReadingsPast(st: State, t: ThreadId, c: Choice)
    requires ReadingsPast(st) && CanGo(st, t, c)
    ensures ReadingsPast(Step(st, t, c))
  {
    var st' := Step(st, t, c);
    forall u | u in st'.threads && st'.threads[u].ReaperLock? ensures st'.threads[u].at <= st'.now {
      assert u != t ==> u in st.threads && st'.threads[u] == st.threads[u];
    }
  }

  lemma NextReadingsPast(st: State, st': State)
    requires ReadingsPast(st) && Follows(st, st')
    ensures ReadingsPast(st')
  {
    var a :| Enabled(st, a) && st' == Next(st, a);
    if a.Go? {
      StepReadingsPast(st, a.t, a.c);
    }
  }

  lemma {:induction false} RunReadingsPast(run: seq<State>, n: nat)
    requires IsRun(run) && n < |run|
    ensures ReadingsPast(run[n])
  {
    if n > 0 {
      RunReadingsPast(run, n - 1);
      assert StepAt(run, n - 1);
      NextReadingsPast(run[n - 1], run[n]);
    }
  }

  ghost predicate MayRemove(st: State, t: ThreadId, s: SessionId)
    requires t in st.threads && s in st.sh.sessions
  {
    st.threads[t] == DestroyCall(s) || st.threads[t].AwaitReaper?
    || (st.threads[t].ReaperLock? && st.now > st.sh.sessions[s])
  }

  lemma StepRemovalReason(st: State, t: ThreadId, c: Choice, s: SessionId)
    requires ReadingsPast(st) && CanGo(st, t, c) && s in st.sh.sessions && s !in Step(st, t, c).sh.sessions
    ensures MayRemove(st, t, s)
  {
  }

  /** A session leaves the registry only by a thread that may remove it. */
  lemma RemovalStep(run: seq<State>, n: nat, s: SessionId)
    requires IsRun(run) && n + 1 < |run| && s in run[n].sh.sessions && s !in run[n + 1].sh.sessions
    ensures exists t :: t in run[n].threads && MayRemove(run[n], t, s)
  {
    RunReadingsPast(run, n);
    assert StepAt(run, n);
    StepRemoves(run[n], run[n + 1], s);
  }

  lemma StepRemoves(st: State, st': State, s: SessionId)
    requires ReadingsPast(st) && Follows(st, st') && s in st.sh.sessions && s !in st'.sh.sessions
    ensures exists t :: t in st.threads && MayRemove(st, t, s)
  {
    var a :| Enabled(st, a) && st' == Next(st, a);
    if a.Go? {
      StepRemovalReason(st, a.t, a.c, s);
    }
  }

  // ----- shutdown

  /** After Close emptied the registry it stays empty unless a create handler was still running. */
  ghost predicate EmptiedStays(st: State) {
    st.h.drained && !st.h.insertedAfterClose ==> st.sh.sessions == map[]
  }

  lemma StepEmptiedStays(st: State, t: ThreadId, c: Choice)
    requires EmptiedStays(st) && CanGo(st, t, c)
    ensures EmptiedStays(Step(st, t, c))
  {
    if st.threads[t].AwaitReaper? {
      assert forall s <- st.sh.sessions :: s in c.order;
      assert st.sh.sessions - (set s | s in c.order) == map[];
    }
    if st.threads[t].ReaperLock? && st.sh.sessions == map[] {
      assert st.sh.sessions - (set s | s in c.order) == map[];
    }
  }

  lemma {:induction false} RunEmptiedStays(run: seq<State>, n: nat)
    requires IsRun(run) && n < |run|
    ensures EmptiedStays(run[n])
  {
    if n > 0 {
      RunEmptiedStays(run, n - 1);
      assert StepAt(run, n - 1);
      var a :| Enabled(run[n - 1], a) && run[n] == Next(run[n - 1], a);
      if a.Go? {
        StepEmptiedStays(run[n - 1], a.t, a.c);
      }
    }
  }

  /** Not a create handler past its device check, and not a remover with work left. */
  predicate Resting(pc: Pc) {
    !Creating(pc) && !pc.GiveBack? && Program(pc) == []
  }

  ghost predicate AtRest(st: State) {
    forall t <- st.threads :: Resting(st.threads[t])
  }

  lemma RestOwnsNothing(st: State)
    requires Invariant(st) && AtRest(st)
    ensures Holders(st.threads) == {} && Owing(st) == {} && Dying(st) == {} && BootIds(st.threads) == {}
  {
    assert Booting(st.threads) == {};
  }

  /** Every slot and every sandbox comes home, from whatever state the shutdown began. */
  lemma DrainReturnsEverything(run: seq<State>, n: nat)
    requires IsRun(run) && n < |run| && AtRest(run[n])
    ensures run[n].sh.active == |run[n].sh.sessions| && run[n].sh.running == run[n].sh.sessions.Keys
    ensures run[n].h.drained && !run[n].h.insertedAfterClose ==>
      run[n].sh.sessions == map[] && run[n].sh.active == 0 && run[n].sh.running == {}
  {
    RunInvariant(run, n);
    RunEmptiedStays(run, n);
    RestOwnsNothing(run[n]);
    assert |run[n].sh.sessions| == |run[n].sh.sessions.Keys|;
  }
}

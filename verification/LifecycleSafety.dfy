/** What holds in every state of every run of the lifecycle. */
module LifecycleSafety {
  import opened Bindings
  import opened Teardown
  import opened Lifecycle
  import opened LifecycleInvariant

  /** Steps that own no session before or after. */
  predicate PlainChoice(pc: Pc, c: Choice) {
    Plain(pc) && (pc.Provision? ==> !c.Issue?) && !pc.ReaperLock? && !pc.AwaitReaper? && !pc.DestroyCall?
  }

  lemma PlainChoiceStep(st: State, t: ThreadId, c: Choice)
    requires CanGo(st, t, c) && PlainChoice(st.threads[t], c) && PcOk(st, t, st.threads[t])
    requires st.sh.active <= st.max && (st.threads[t].GiveBack? ==> st.sh.active >= 1)
    ensures IsPlainStep(st, Step(st, t, c), t, Step(st, t, c).threads[t])
  {
    if Creating(st.threads[t]) || st.threads[t].GiveBack? {
      PlainCreateStep(st, t, c);
    }
  }

  lemma PlainCreateStep(st: State, t: ThreadId, c: Choice)
    requires CanGo(st, t, c) && PlainChoice(st.threads[t], c) && PcOk(st, t, st.threads[t])
    requires Creating(st.threads[t]) || st.threads[t].GiveBack?
    requires st.sh.active <= st.max && (st.threads[t].GiveBack? ==> st.sh.active >= 1)
    ensures IsPlainStep(st, Step(st, t, c), t, Step(st, t, c).threads[t])
  {
  }

  lemma HolderCounted(st: State, t: ThreadId)
    requires SlotsConserved(st) && t in st.threads && Holds(st.threads[t])
    ensures st.sh.active >= 1
  {
    assert t in Holders(st.threads);
  }

  lemma PlainKeeps(st: State, st': State, t: ThreadId, pc: Pc)
    requires Invariant(st) && IsPlainStep(st, st', t, pc)
    ensures Invariant(st')
  {
    PlainStructure(st, st', t, pc);
    PlainSlots(st, st', t, pc);
    PlainSandboxes(st, st', t, pc);
  }

  lemma CreateKeeps(st: State, t: ThreadId, c: Choice)
    requires Invariant(st) && CanGo(st, t, c)
    requires st.threads[t].Provision? || st.threads[t].Insert? || st.threads[t].Register?
    requires st.threads[t].Provision? ==> c.Issue?
    ensures Invariant(Step(st, t, c))
  {
    match st.threads[t]
    case Provision(d) =>
      ProvisionStructure(st, t, d, c);
      ProvisionSlots(st, t, d, c);
      ProvisionSandboxes(st, t, d, c);
    case Insert(d, id, expires) =>
      assert PcOk(st, t, st.threads[t]);
      InsertStructure(st, t, d, id, expires);
      InsertSlots(st, t, d, id, expires);
      InsertSandboxes(st, t, d, id, expires);
    case Register(d, id) =>
      RegisterStructure(st, t, d, id);
      RegisterSlots(st, t, d, id);
      RegisterSandboxes(st, t, d, id);
  }

  lemma TakeKeeps(st: State, st': State, t: ThreadId, ids: seq<SessionId>, prog: seq<Instr>, reaper: bool)
    requires Invariant(st) && IsTake(st, st', t, ids, prog, reaper)
    ensures Invariant(st')
  {
    TakeStructure(st, st', t, ids, prog, reaper);
    TakeMoves(st, st', t, ids, prog, reaper);
    TakeMovesThread(st, st', t, ids, prog, reaper);
    TakeOwnership(st, st', t, Tearing(prog, reaper), set s | s in ids);
  }

  lemma DestroyKeeps(st: State, t: ThreadId, id: SessionId)
    requires Invariant(st) && t in st.threads && st.threads[t] == DestroyCall(id) && id in st.sh.sessions
    ensures Invariant(Take(st, t, [id], Single(id), false))
  {
    SingleWellFormed(id);
    TakeKeeps(st, Take(st, t, [id], Single(id), false), t, [id], Single(id), false);
  }

  lemma ReapKeeps(st: State, t: ThreadId, order: seq<SessionId>)
    requires Invariant(st) && t in st.threads && st.threads[t].ReaperLock?
    requires Distinct(order) && forall s <- order :: s in st.sh.sessions
    ensures Invariant(Take(st, t, order, OneByOne(order), true))
  {
    OneByOneWellFormed(order);
    TakeKeeps(st, Take(st, t, order, OneByOne(order), true), t, order, OneByOne(order), true);
  }

  lemma CloseKeeps(st: State, t: ThreadId, order: seq<SessionId>)
    requires Invariant(st) && t in st.threads && st.threads[t].AwaitReaper?
    requires Distinct(order) && forall s <- order :: s in st.sh.sessions
    ensures Invariant(TakeAll(st, t, order))
  {
    CallbacksFirstWellFormed(order);
    TakeKeeps(st, TakeAll(st, t, order), t, order, CallbacksFirst(order), false);
  }

  lemma RemovalKeeps(st: State, t: ThreadId, c: Choice)
    requires Invariant(st) && CanGo(st, t, c)
    requires st.threads[t].ReaperLock? || st.threads[t].AwaitReaper?
          || (st.threads[t].DestroyCall? && st.threads[t].id in st.sh.sessions)
    ensures Invariant(Step(st, t, c))
  {
    match st.threads[t]
    case DestroyCall(id) => DestroyKeeps(st, t, id);
    case ReaperLock(_) => ReapKeeps(st, t, c.order);
    case AwaitReaper => CloseKeeps(st, t, c.order);
  }

  lemma TearKeeps(st: State, t: ThreadId, prog: seq<Instr>, reaper: bool)
    requires Invariant(st) && AtTear(st, t, prog, reaper)
    ensures Invariant(TearStep(st, t, prog, reaper))
  {
    NeverBelowZero(st, t, prog, reaper);
    TearStructure(st, t, prog, reaper);
    TearSlots(st, t, prog, reaper);
    TearSandboxes(st, t, prog, reaper);
  }

  lemma PlainGoKeeps(st: State, t: ThreadId, c: Choice)
    requires Invariant(st) && CanGo(st, t, c) && PlainChoice(st.threads[t], c)
    ensures Invariant(Step(st, t, c))
  {
    if st.threads[t].GiveBack? {
      HolderCounted(st, t);
    }
    var st' := Step(st, t, c);
    assert IsPlainStep(st, st', t, st'.threads[t]) by {
      assert PcOk(st, t, st.threads[t]);
      PlainChoiceStep(st, t, c);
    }
    PlainKeeps(st, st', t, st'.threads[t]);
  }

  lemma MissedDestroyKeeps(st: State, t: ThreadId)
    requires Invariant(st) && t in st.threads && st.threads[t].DestroyCall?
    ensures Invariant(Move(st, t, Finished))
  {
    PlainKeeps(st, Move(st, t, Finished), t, Finished);
  }

  lemma SpawnKeeps(st: State, t: ThreadId, pc: Pc)
    requires Invariant(st) && t !in st.threads && Entry(pc)
    ensures Invariant(Move(st, t, pc))
  {
    PlainKeeps(st, Move(st, t, pc), t, pc);
  }

  lemma GoKeeps(st: State, t: ThreadId, c: Choice)
    requires Invariant(st) && CanGo(st, t, c)
    ensures Invariant(Step(st, t, c))
  {
    var pc := st.threads[t];
    assert PcOk(st, t, pc);
    if pc.Tearing? && pc.prog != [] {
      TearKeeps(st, t, pc.prog, pc.reaper);
    } else if pc.Insert? || pc.Register? || (pc.Provision? && c.Issue?) {
      CreateKeeps(st, t, c);
    } else if pc.ReaperLock? || pc.AwaitReaper? || (pc.DestroyCall? && pc.id in st.sh.sessions) {
      RemovalKeeps(st, t, c);
    } else if pc.DestroyCall? {
      MissedDestroyKeeps(st, t);
    } else {
      PlainGoKeeps(st, t, c);
    }
  }

  lemma ElapseKeeps(st: State, dt: nat)
    requires Invariant(st)
    ensures Invariant(ElapseStep(st, dt))
  {
    var st' := ElapseStep(st, dt);
    assert Owing(st') == Owing(st) && Dying(st') == Dying(st);
    assert forall i :: Waiting(st', i) <==> Waiting(st, i);
    forall u | u in st'.threads ensures PcOk(st', u, st'.threads[u]) {
      assert PcOk(st, u, st.threads[u]);
    }
  }

  lemma NextKeeps(st: State, a: Action)
    requires Invariant(st) && Enabled(st, a)
    ensures Invariant(Next(st, a))
  {
    match a
    case Spawn(t, pc) =>
      SpawnKeeps(st, t, pc);
    case Elapse(dt) =>
      assert Next(st, a) == ElapseStep(st, dt);
      ElapseKeeps(st, dt);
    case Go(t, c) =>
      GoKeeps(st, t, c);
  }

  lemma InitialInvariant(st: State)
    requires Initial(st)
    ensures Invariant(st)
  {
    assert Holders(st.threads) == {} && Owing(st) == {} && BootIds(st.threads) == {} && Dying(st) == {};
  }

  lemma FollowsKeeps(st: State, st': State)
    requires Invariant(st) && Follows(st, st')
    ensures Invariant(st')
  {
    var a :| Enabled(st, a) && st' == Next(st, a);
    NextKeeps(st, a);
  }

  lemma RunInvariant(run: seq<State>, n: nat)
    requires IsRun(run) && n < |run|
    ensures Invariant(run[n])
  {
    forall st | Initial(st) ensures Invariant(st) {
      InitialInvariant(st);
    }
    forall st, st' | Invariant(st) && Follows(st, st') ensures Invariant(st') {
      FollowsKeeps(st, st');
    }
    RunInduction(run, n, st => Invariant(st));
  }
}

/** What can still happen from a given state of the lifecycle: continuations in which nobody new
    passes the device check, and how every thread can be brought to an end. */
module LifecycleReach {
  import opened Bindings
  import opened Teardown
  import opened Registry
  import opened Lifecycle
  import opened LifecycleInvariant
  import opened LifecycleSafety
  import opened LifecycleTheorems

  ghost predicate Reachable(st: State) {
    exists run :: IsRun(run) && run[|run| - 1] == st
  }

  lemma Reach(st: State, a: Action)
    requires Reachable(st) && Enabled(st, a)
    ensures Reachable(Next(st, a))
  {
    var run :| IsRun(run) && run[|run| - 1] == st;
    var longer := run + [Next(st, a)];
    forall i: nat | i + 1 < |longer| ensures StepAt(longer, i) {
      assert i + 1 < |run| ==> StepAt(run, i);
    }
    assert IsRun(longer);
  }

  lemma ReachableInvariant(st: State)
    requires Reachable(st)
    ensures Invariant(st)
  {
    var run :| IsRun(run) && run[|run| - 1] == st;
    var n: nat := |run| - 1;
    assert run[n] == st;
    RunInvariant(run, n);
  }

  // ----- continuations

  /** Any step but a device check; and nobody asks for a session before its id is given out, which
      is after its registration. */
  ghost predicate Calm(st: State, a: Action)
    requires Enabled(st, a)
  {
    match a
    case Go(t, _) => !st.threads[t].CheckDevice?
    case Spawn(_, pc) => pc.DestroyCall? || pc.AttachLookup? ==> pc.id in st.h.bound
    case Elapse(_) => true
  }

  ghost predicate CalmlyFollows(st: State, st': State) {
    exists a :: Enabled(st, a) && Calm(st, a) && st' == Next(st, a)
  }

  ghost predicate CalmAt(path: seq<State>, i: nat)
    requires i + 1 < |path|
  {
    CalmlyFollows(path[i], path[i + 1])
  }

  ghost predicate CalmPath(path: seq<State>) {
    path != [] && forall i: nat | i + 1 < |path| :: CalmAt(path, i)
  }

  /** Some continuation without further device checks ends in `st'`. */
  ghost predicate Leads(st: State, st': State) {
    exists path :: CalmPath(path) && path[0] == st && path[|path| - 1] == st'
  }

  lemma LeadsSelf(st: State)
    ensures Leads(st, st)
  {
    assert CalmPath([st]);
  }

  lemma LeadsOn(start: State, st: State, a: Action)
    requires Leads(start, st) && Enabled(st, a) && Calm(st, a)
    ensures Leads(start, Next(st, a))
  {
    var path :| CalmPath(path) && path[0] == start && path[|path| - 1] == st;
    var longer := path + [Next(st, a)];
    forall i: nat | i + 1 < |longer| ensures CalmAt(longer, i) {
      assert i + 1 < |path| ==> CalmAt(path, i);
    }
    assert CalmPath(longer);
  }

  /** What every calm step keeps holds at the end of a calm path if it held at its beginning. */
  lemma {:induction false} PathInduction(path: seq<State>, n: nat, holds: State -> bool)
    requires CalmPath(path) && n < |path| && holds(path[0])
    requires forall st, st' | holds(st) && CalmlyFollows(st, st') :: holds(st')
    ensures holds(path[n])
  {
    if n > 0 {
      PathInduction(path, n - 1, holds);
      assert CalmAt(path, n - 1);
    }
  }

  lemma {:induction false} PathReachable(path: seq<State>, n: nat)
    requires CalmPath(path) && Reachable(path[0]) && n < |path|
    ensures Reachable(path[n]) && path[n].max == path[0].max
  {
    if n > 0 {
      PathReachable(path, n - 1);
      assert CalmAt(path, n - 1);
      ReachStep(path[n - 1], path[n]);
    }
  }

  lemma ReachStep(st: State, st': State)
    requires Reachable(st) && CalmlyFollows(st, st')
    ensures Reachable(st') && st'.max == st.max
  {
    var a :| Enabled(st, a) && Calm(st, a) && st' == Next(st, a);
    Reach(st, a);
    ReachableInvariant(st);
    NextGrows(st, st');
  }

  lemma LeadsReachable(st: State, st': State)
    requires Reachable(st) && Leads(st, st')
    ensures Reachable(st') && st'.max == st.max
  {
    var path :| CalmPath(path) && path[0] == st && path[|path| - 1] == st';
    PathReachable(path, |path| - 1);
  }

  /** `st` continues a reachable state. */
  ghost predicate From(start: State, st: State) {
    Reachable(start) && Leads(start, st)
  }

  lemma FromInvariant(start: State, st: State)
    requires From(start, st)
    ensures Invariant(st)
  {
    LeadsReachable(start, st);
    ReachableInvariant(st);
  }

  lemma GoOn(start: State, st: State, t: ThreadId, c: Choice) returns (st': State)
    requires From(start, st) && CanGo(st, t, c) && !st.threads[t].CheckDevice?
    ensures From(start, st') && st' == Step(st, t, c)
  {
    st' := Step(st, t, c);
    LeadsOn(start, st, Go(t, c));
  }

  // ----- bringing a thread to its end

  /** Nothing but the server's threads, slots, sessions and bindings differs. */
  ghost predicate SameServer(st: State, st': State) {
    && st'.max == st.max && st'.ttl == st.ttl && st'.now == st.now && st'.stopping == st.stopping
    && st'.h.drained == st.h.drained && st'.h.creator == st.h.creator && st.h.bound <= st'.h.bound
  }

  /** Only `t` has moved, and no session left the registry. */
  ghost predicate OnlyMoved(st: State, st': State, t: ThreadId) {
    && SameServer(st, st')
    && t in st.threads && t in st'.threads && st'.threads == st.threads[t := st'.threads[t]]
    && (forall s <- st.sh.sessions :: s in st'.sh.sessions)
    && (!st.threads[t].Insert? ==> st'.sh.sessions == st.sh.sessions)
    && st'.h.removedBy == st.h.removedBy
  }

  /** Steps to its end for a thread that fails at the next opportunity. */
  function Work(st: State, pc: Pc): nat {
    match pc
    case Load(_) => 4
    case Cas(_, seen) => if seen == st.sh.active then 3 else 5
    case Challenge(_) => 2
    case Throttle(_) => 2
    case Provision(_) => 2
    case Insert(_, _, _) => 2
    case Register(_, _) => 1
    case GiveBack => 1
    case Tearing(prog, _) => |prog| + 1
    case _ => 0
  }

  lemma CreateProgress(st: State, t: ThreadId)
    requires t in st.threads && (Creating(st.threads[t]) || (st.threads[t].GiveBack? && st.sh.active >= 1))
    ensures CanGo(st, t, Fail) && Progress(st, Step(st, t, Fail), t)
  {
  }

  /** `t` alone has moved, towards its end. */
  ghost predicate Progress(st: State, st': State, t: ThreadId) {
    && OnlyMoved(st, st', t) && Work(st', st'.threads[t]) < Work(st, st.threads[t]) && !st'.threads[t].Insert?
    && (st.threads[t].Tearing? ==> st'.threads[t].Tearing? && st'.threads[t].reaper == st.threads[t].reaper)
  }

  lemma TearProgress(st: State, t: ThreadId, prog: seq<Instr>, reaper: bool)
    requires t in st.threads && st.threads[t] == Tearing(prog, reaper) && prog != [] && Rest(st.sh, prog) == prog[1..]
    ensures CanGo(st, t, Fail) && Progress(st, Step(st, t, Fail), t)
  {
    assert Step(st, t, Fail) == TearStep(st, t, prog, reaper);
  }

  lemma NoUnderflow(start: State, st: State, t: ThreadId)
    requires From(start, st) && t in st.threads
    ensures st.threads[t].GiveBack? ==> st.sh.active >= 1
    ensures st.threads[t].Tearing? && st.threads[t].prog != [] ==>
      Rest(st.sh, st.threads[t].prog) == st.threads[t].prog[1..]
  {
    FromInvariant(start, st);
    if st.threads[t].GiveBack? {
      HolderCounted(st, t);
    }
    if st.threads[t].Tearing? && st.threads[t].prog != [] {
      NeverBelowZero(st, t, st.threads[t].prog, st.threads[t].reaper);
    }
  }

  lemma OneMove(start: State, st: State, t: ThreadId) returns (st': State)
    requires From(start, st) && t in st.threads && !Resting(st.threads[t])
    ensures From(start, st') && Progress(st, st', t)
  {
    NoUnderflow(start, st, t);
    if st.threads[t].Tearing? {
      TearProgress(st, t, st.threads[t].prog, st.threads[t].reaper);
    } else {
      CreateProgress(st, t);
    }
    st' := GoOn(start, st, t, Fail);
  }

  lemma MovedOn(a: State, b: State, c: State, t: ThreadId)
    requires OnlyMoved(a, b, t) && OnlyMoved(b, c, t) && !b.threads[t].Insert?
    ensures OnlyMoved(a, c, t)
  {
  }

  /** Any thread can run to its end, alone. */
  lemma {:induction false} FinishThread(start: State, st: State, t: ThreadId) returns (st': State)
    requires From(start, st) && t in st.threads
    ensures From(start, st') && OnlyMoved(st, st', t) && Resting(st'.threads[t])
    ensures st.threads[t].Tearing? ==> st'.threads[t] == Tearing([], st.threads[t].reaper)
    decreases Work(st, st.threads[t])
  {
    if Resting(st.threads[t]) {
      st' := st;
    } else {
      var moved := OneMove(start, st, t);
      st' := FinishThread(start, moved, t);
      MovedOn(st, moved, st', t);
    }
  }

  /** Only threads of `ts` have moved. */
  ghost predicate OnlyThese(st: State, st': State, ts: set<ThreadId>) {
    && SameServer(st, st') && st'.threads.Keys == st.threads.Keys
    && (forall t <- st.threads | t !in ts :: st'.threads[t] == st.threads[t])
    && (forall s <- st.sh.sessions :: s in st'.sh.sessions)
  }

  /** Any set of threads can run to its end. */
  lemma {:induction false} FinishAll(start: State, st: State, ts: set<ThreadId>) returns (st': State)
    requires From(start, st) && ts <= st.threads.Keys
    ensures From(start, st') && OnlyThese(st, st', ts)
    ensures forall t <- ts :: Resting(st'.threads[t])
    decreases |ts|
  {
    if ts == {} {
      st' := st;
    } else {
      var t :| t in ts;
      var moved := FinishThread(start, st, t);
      st' := FinishAll(start, moved, ts - {t});
      assert forall u <- st.threads | u !in ts :: moved.threads[u] == st.threads[u];
    }
  }

  // ----- removing sessions

  lemma {:induction false} Below(ids: set<nat>) returns (n: nat)
    ensures forall i <- ids :: i < n
  {
    if ids == {} {
      n := 0;
    } else {
      var i :| i in ids;
      var m := Below(ids - {i});
      n := if i < m then m else i + 1;
      assert forall j <- ids :: j == i || j in ids - {i};
    }
  }

  lemma SpawnOn(start: State, st: State, t: ThreadId, pc: Pc) returns (st': State)
    requires From(start, st) && Enabled(st, Spawn(t, pc)) && Calm(st, Spawn(t, pc))
    ensures From(start, st') && st' == Move(st, t, pc)
  {
    st' := Move(st, t, pc);
    LeadsOn(start, st, Spawn(t, pc));
  }

  /** The threads of `st` stand still; threads that came since are at rest. */
  ghost predicate OnlyAdded(st: State, st': State) {
    && SameServer(st, st')
    && (forall t <- st.threads :: t in st'.threads && st'.threads[t] == st.threads[t])
    && (forall t <- st'.threads | t !in st.threads :: Resting(st'.threads[t]))
  }

  /** A session whose id is known can be destroyed while everybody else stands still. */
  lemma DestroyOne(start: State, st: State, id: SessionId) returns (st': State)
    requires From(start, st) && id in st.sh.sessions && id in st.h.bound
    ensures From(start, st') && OnlyAdded(st, st') && st'.sh.sessions == st.sh.sessions - {id}
  {
    var t := Below(st.threads.Keys);
    var asked := SpawnOn(start, st, t, DestroyCall(id));
    var taken := GoOn(start, asked, t, Pass);
    assert (set s | s in [id]) == {id};
    st' := FinishThread(start, taken, t);
  }

  lemma {:induction false} DestroyEach(start: State, st: State, ids: set<SessionId>) returns (st': State)
    requires From(start, st) && ids <= st.sh.sessions.Keys && ids <= st.h.bound
    ensures From(start, st') && OnlyAdded(st, st') && st'.sh.sessions == st.sh.sessions - ids
    decreases |ids|
  {
    if ids == {} {
      st' := st;
    } else {
      var id :| id in ids;
      var less := DestroyOne(start, st, id);
      st' := DestroyEach(start, less, ids - {id});
    }
  }

  lemma {:induction false} Enumeration(ids: set<SessionId>) returns (order: seq<SessionId>)
    ensures Enumerates(order, ids)
  {
    if ids == {} {
      order := [];
    } else {
      var id :| id in ids;
      var rest := Enumeration(ids - {id});
      order := rest + [id];
    }
  }
}

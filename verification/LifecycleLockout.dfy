/** A session that is torn down before its registration: its device is locked out for good. */
module LifecycleLockout {
  import opened Bindings
  import opened Teardown
  import opened Lifecycle
  import opened LifecycleInvariant
  import opened LifecycleSafety
  import opened LifecycleTheorems
  import opened LifecycleBindings
  import opened LifecycleReach
  import opened LifecycleShutdown
  import opened LifecycleOverlap

  /** The device's only entry is for a session that was released before, and no create of the
      device is under way. */
  ghost predicate Locked(st: State, d: DeviceId, s: SessionId) {
    && HasSession(st.sh.bindings, d) && st.sh.bindings.deviceSessions[d] == s
    && s in st.h.bound && Unbind(s) in st.h.log
    && (forall x <- st.sh.bindings.sessionDevices :: st.sh.bindings.sessionDevices[x] == d ==> x == s)
    && (forall t <- st.threads | Creating(st.threads[t]) :: st.threads[t].device != d)
  }

  lemma RegisterKeepsLocked(st: State, t: ThreadId, e: DeviceId, id: SessionId, d: DeviceId, s: SessionId)
    requires Locked(st, d, s) && t in st.threads && st.threads[t] == Register(e, id) && id !in st.h.bound
    ensures Locked(RegisterStep(st, t, e, id), d, s)
  {
    assert Creating(st.threads[t]);
    var st' := RegisterStep(st, t, e, id);
    forall u | u in st'.threads && Creating(st'.threads[u]) ensures st'.threads[u].device != d {
      assert u != t && st'.threads[u] == st.threads[u];
    }
  }

  lemma TearKeepsLocked(st: State, t: ThreadId, prog: seq<Instr>, reaper: bool, d: DeviceId, s: SessionId)
    requires Locked(st, d, s) && t in st.threads && st.threads[t] == Tearing(prog, reaper)
    requires prog != [] ==> prog[0] !in st.h.log
    ensures Locked(TearStep(st, t, prog, reaper), d, s)
  {
    var st' := TearStep(st, t, prog, reaper);
    forall u | u in st'.threads && Creating(st'.threads[u]) ensures st'.threads[u].device != d {
      assert u != t && st'.threads[u] == st.threads[u];
    }
  }

  lemma CheckKeepsLocked(st: State, t: ThreadId, c: Choice, d: DeviceId, s: SessionId)
    requires Locked(st, d, s) && CanGo(st, t, c) && !st.threads[t].Register? && !st.threads[t].Tearing?
    ensures Locked(Step(st, t, c), d, s)
  {
    StepUntouched(st, t, c);
    var st' := Step(st, t, c);
    assert st'.h.log == st.h.log;
    forall u | u in st'.threads && Creating(st'.threads[u]) ensures st'.threads[u].device != d {
      if u != t {
        assert st'.threads[u] == st.threads[u];
      } else if st.threads[t].CheckDevice? {
        assert !HasSession(st.sh.bindings, st.threads[t].device);
      } else {
        StepCreating(st, t, c);
      }
    }
  }

  lemma NextKeepsLocked(st: State, st': State, d: DeviceId, s: SessionId)
    requires ThreadsOk(st) && Locked(st, d, s) && Follows(st, st')
    ensures Locked(st', d, s)
  {
    var a :| Enabled(st, a) && st' == Next(st, a);
    if a.Go? {
      var pc := st.threads[a.t];
      assert PcOk(st, a.t, pc);
      if pc.Register? {
        RegisterKeepsLocked(st, a.t, pc.device, pc.id, d, s);
      } else if pc.Tearing? {
        TearKeepsLocked(st, a.t, pc.prog, pc.reaper, d, s);
      } else {
        CheckKeepsLocked(st, a.t, a.c, d, s);
      }
    }
  }

  lemma StepAtLocked(run: seq<State>, n: nat, d: DeviceId, s: SessionId)
    requires IsRun(run) && n + 1 < |run| && Locked(run[n], d, s)
    ensures Locked(run[n + 1], d, s)
  {
    RunInvariant(run, n);
    assert StepAt(run, n);
    NextKeepsLocked(run[n], run[n + 1], d, s);
  }

  /** Whatever the server does from then on, the device stays refused. */
  lemma {:induction false} LockedForGood(run: seq<State>, m: nat, n: nat, d: DeviceId, s: SessionId)
    requires IsRun(run) && m <= n < |run| && Locked(run[m], d, s)
    ensures Locked(run[n], d, s) && HasSession(run[n].sh.bindings, d)
  {
    if m < n {
      LockedForGood(run, m, n - 1, d, s);
      StepAtLocked(run, n - 1, d, s);
    }
  }

  // ----- exactly the late registrations lock

  lemma LocksLate(st: State, t: ThreadId, d: DeviceId, id: SessionId)
    requires Tight(st) && NoOverlap(st) && t in st.threads && st.threads[t] == Register(d, id)
    requires Unbind(id) in st.h.log
    ensures Locked(RegisterStep(st, t, d, id), d, id)
  {
    NoneOther(st, t, d, id);
  }

  /** The registration ends the device's only create. */
  lemma NoneOther(st: State, t: ThreadId, d: DeviceId, id: SessionId)
    requires Tight(st) && NoOverlap(st) && t in st.threads && st.threads[t] == Register(d, id)
    ensures !HasSession(st.sh.bindings, d)
    ensures NoneCreating(RegisterStep(st, t, d, id), d)
  {
    var st' := RegisterStep(st, t, d, id);
    assert Creating(st.threads[t]);
    forall u | u in st'.threads && Creating(st'.threads[u]) ensures st'.threads[u].device != d {
      assert u != t && st'.threads[u] == st.threads[u];
    }
  }

  lemma CalmKeepsLocked(st: State, st': State, d: DeviceId, s: SessionId)
    requires Reachable(st) && Locked(st, d, s) && CalmlyFollows(st, st')
    ensures Reachable(st') && Locked(st', d, s)
  {
    ReachStep(st, st');
    ReachableInvariant(st);
    NextKeepsLocked(st, st', d, s);
  }

  lemma LockedPath(st: State, st': State, d: DeviceId, s: SessionId)
    requires Reachable(st) && Locked(st, d, s) && Leads(st, st')
    ensures HasSession(st'.sh.bindings, d)
  {
    var path :| CalmPath(path) && path[0] == st && path[|path| - 1] == st';
    forall a, b | Reachable(a) && Locked(a, d, s) && CalmlyFollows(a, b) ensures Reachable(b) && Locked(b, d, s) {
      CalmKeepsLocked(a, b, d, s);
    }
    PathInduction(path, |path| - 1, a => Reachable(a) && Locked(a, d, s));
  }

  ghost predicate NoneCreating(st: State, d: DeviceId) {
    forall t <- st.threads | Creating(st.threads[t]) :: st.threads[t].device != d
  }

  /** The device's only entry can be that of `s`, which was registered in time, and no create of
      the device is under way. */
  ghost predicate Solo(st: State, d: DeviceId, s: SessionId) {
    && s in st.h.bound && s !in st.h.late && NoneCreating(st, d)
    && (forall x <- st.sh.bindings.sessionDevices :: st.sh.bindings.sessionDevices[x] == d ==> x == s)
  }

  lemma RegisterKeepsSolo(st: State, t: ThreadId, e: DeviceId, id: SessionId, d: DeviceId, s: SessionId)
    requires Solo(st, d, s) && t in st.threads && st.threads[t] == Register(e, id) && id !in st.h.bound
    ensures Solo(RegisterStep(st, t, e, id), d, s)
  {
    assert Creating(st.threads[t]);
    var st' := RegisterStep(st, t, e, id);
    forall u | u in st'.threads && Creating(st'.threads[u]) ensures st'.threads[u].device != d {
      assert u != t && st'.threads[u] == st.threads[u];
    }
  }

  lemma OtherKeepsSolo(st: State, t: ThreadId, c: Choice, d: DeviceId, s: SessionId)
    requires Solo(st, d, s) && CanGo(st, t, c) && !st.threads[t].Register? && !st.threads[t].CheckDevice?
    ensures Solo(Step(st, t, c), d, s)
  {
    StepCreating(st, t, c);
    EntriesOnlyLeave(st, t, c);
  }

  lemma EntriesOnlyLeave(st: State, t: ThreadId, c: Choice)
    requires CanGo(st, t, c) && !st.threads[t].Register?
    ensures var st' := Step(st, t, c);
      && st'.h.bound == st.h.bound && st'.h.late == st.h.late
      && (forall x <- st'.sh.bindings.sessionDevices ::
            x in st.sh.bindings.sessionDevices
            && st'.sh.bindings.sessionDevices[x] == st.sh.bindings.sessionDevices[x])
  {
    if !Releases(st.threads[t]) {
      StepUntouched(st, t, c);
    }
  }

  lemma CalmKeepsSolo(st: State, st': State, d: DeviceId, s: SessionId)
    requires ThreadsOk(st) && Solo(st, d, s) && CalmlyFollows(st, st')
    ensures Solo(st', d, s)
  {
    var a :| Enabled(st, a) && Calm(st, a) && st' == Next(st, a);
    if a.Go? {
      var pc := st.threads[a.t];
      if pc.Register? {
        assert PcOk(st, a.t, pc);
        RegisterKeepsSolo(st, a.t, pc.device, pc.id, d, s);
      } else {
        OtherKeepsSolo(st, a.t, a.c, d, s);
      }
    }
  }

  lemma ReachSolo(st: State, st': State, d: DeviceId, s: SessionId)
    requires Reachable(st) && Solo(st, d, s) && CalmlyFollows(st, st')
    ensures Reachable(st') && Solo(st', d, s)
  {
    ReachStep(st, st');
    ReachableInvariant(st);
    CalmKeepsSolo(st, st', d, s);
  }

  lemma SoloPath(st: State, st': State, d: DeviceId, s: SessionId)
    requires Reachable(st) && Solo(st, d, s) && Leads(st, st')
    ensures Solo(st', d, s)
  {
    var path :| CalmPath(path) && path[0] == st && path[|path| - 1] == st';
    forall a, b | Reachable(a) && Solo(a, d, s) && CalmlyFollows(a, b) ensures Reachable(b) && Solo(b, d, s) {
      ReachSolo(a, b, d, s);
    }
    PathInduction(path, |path| - 1, a => Reachable(a) && Solo(a, d, s));
  }

  /** Everybody comes to rest and the session, whose id is known now, is destroyed. */
  lemma Freed(st: State, d: DeviceId, id: SessionId) returns (st': State)
    requires Reachable(st) && Solo(st, d, id)
    ensures Leads(st, st') && !HasSession(st'.sh.bindings, d)
  {
    LeadsSelf(st);
    st' := FinishAll(st, st, st.threads.Keys);
    if id in st'.sh.sessions {
      st' := DestroyOne(st, st', id);
    }
    SoloPath(st, st', d, id);
    SoloReleased(st, st', d, id);
  }

  lemma SoloReleased(start: State, st: State, d: DeviceId, id: SessionId)
    requires From(start, st) && Solo(st, d, id) && AtRest(st) && id !in st.sh.sessions
    ensures !HasSession(st.sh.bindings, d)
  {
    BoundReleased(start, st, id);
    EntriesNow(start, st, id);
  }

  lemma BoundReleased(start: State, st: State, id: SessionId)
    requires From(start, st) && AtRest(st) && id in st.h.bound && id !in st.sh.sessions
    ensures Unbind(id) in st.h.log
  {
    NoneUnderWay(start, st);
    BoundIsRemoved(start, st, id);
  }

  lemma BoundIsRemoved(start: State, st: State, id: SessionId)
    requires From(start, st) && id in st.h.bound && id !in st.sh.sessions
    ensures id in st.h.removedBy
  {
    FromInvariant(start, st);
  }

  lemma EntriesNow(start: State, st: State, id: SessionId)
    requires From(start, st)
    ensures PointsBack(st.sh.bindings) && EntryExact(st, id)
  {
    LeadsReachable(start, st);
    var run :| IsRun(run) && run[|run| - 1] == st;
    RunLoose(run, |run| - 1);
  }

  /** In a server that has kept its creates apart, a registration locks its device out, whatever
      those in flight and the owner of the session do afterwards, if and only if the session was
      released before. */
  lemma RegistrationLocksExactly(run: seq<State>, n: nat, t: ThreadId)
    requires IsRun(run) && n < |run| && forall i: nat | i <= n :: NoOverlap(run[i])
    requires t in run[n].threads && run[n].threads[t].Register?
    ensures var st, d, id := run[n], run[n].threads[t].device, run[n].threads[t].id;
      (forall st' | Leads(RegisterStep(st, t, d, id), st') :: HasSession(st'.sh.bindings, d))
      <==> Unbind(id) in st.h.log
  {
    var st, d, id := run[n], run[n].threads[t].device, run[n].threads[t].id;
    var after := RegisterStep(st, t, d, id);
    RunTight(run, n);
    PrefixReachable(run, n);
    Reach(st, Go(t, Pass));
    if Unbind(id) in st.h.log {
      LocksLate(st, t, d, id);
      forall st' | Leads(after, st') ensures HasSession(st'.sh.bindings, d) {
        LockedPath(after, st', d, id);
      }
    } else {
      InTimeIsSolo(run, n, t, d, id);
      var st' := Freed(after, d, id);
    }
  }

  lemma InTimeIsSolo(run: seq<State>, n: nat, t: ThreadId, d: DeviceId, id: SessionId)
    requires IsRun(run) && n < |run| && NoOverlap(run[n]) && Tight(run[n])
    requires t in run[n].threads && run[n].threads[t] == Register(d, id) && Unbind(id) !in run[n].h.log
    ensures Solo(RegisterStep(run[n], t, d, id), d, id)
  {
    RunInvariant(run, n);
    RunLoose(run, n);
    assert PcOk(run[n], t, run[n].threads[t]) && EntryExact(run[n], id);
    NoneOther(run[n], t, d, id);
  }

  // ----- it happens

  /** In a server that has kept its creates apart, every create that is about to register can still
      lock its device for good: it only has to be slower than the end of its session. */
  lemma LateRegistrationLocksDevice(st: State, t: ThreadId) returns (st': State)
    requires Reachable(st) && NoOverlap(st) && Tight(st) && t in st.threads && st.threads[t].Register?
    ensures Leads(st, st') && Locked(st', st.threads[t].device, st.threads[t].id)
  {
    LeadsSelf(st);
    var late := EmptyAround(st, st, {t});
    ReleasedMeanwhile(st, late, t);
    var path :| CalmPath(path) && path[0] == st && path[|path| - 1] == late;
    PathKeepsTight(path, |path| - 1);
    LocksLate(late, t, st.threads[t].device, st.threads[t].id);
    st' := GoOn(st, late, t, Pass);
  }

  lemma ReleasedMeanwhile(start: State, st: State, t: ThreadId)
    requires From(start, st) && t in st.threads && st.threads[t].Register? && st.sh.sessions == map[]
    requires forall u <- st.threads | u != t :: Resting(st.threads[u])
    ensures Unbind(st.threads[t].id) in st.h.log
  {
    NoneUnderWay(start, st);
    FromInvariant(start, st);
    assert PcOk(st, t, st.threads[t]);
  }

  /** Such a create exists: the first one of any server. */
  lemma FirstCreateCanLock(max: int, ttl: nat, d: DeviceId, id: SessionId) returns (st: State)
    requires max >= 1
    ensures Reachable(st) && st.max == max && Locked(st, d, id)
  {
    StartUpReachable(max, ttl);
    var checked := SpawnChecked(StartUp(max, ttl), 0, d);
    LeadsSelf(checked);
    var slow := ToRegister(checked, checked, 0, id);
    LeadsReachable(checked, slow);
    st := LateRegistrationLocksDevice(slow, 0);
    LeadsReachable(slow, st);
  }
}

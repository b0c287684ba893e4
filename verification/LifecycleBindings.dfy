/** The guard's two maps in the lifecycle, where the device check, the registration and the
    release are separate steps of threads that interleave freely. */
module LifecycleBindings {
  import opened Bindings
  import opened Teardown
  import opened Lifecycle
  import opened LifecycleInvariant
  import opened LifecycleSafety
  import opened LifecycleTheorems

  /** In the registry or removed from it: every session that was ever visible. */
  predicate Known(st: State, s: SessionId) {
    s in st.sh.sessions || s in st.h.removedBy
  }

  /** The binding of `s` has not been released by its teardown. */
  predicate Unreleased(st: State, s: SessionId) {
    Known(st, s) && Unbind(s) !in st.h.log
  }

  /** The handler that created `s` has not yet registered it. */
  predicate AtRegister(st: State, s: SessionId) {
    s in st.h.creator && st.h.creator[s].thread in st.threads
    && st.threads[st.h.creator[s].thread] == Register(st.h.creator[s].device, s)
  }

  // ----- with no condition on the interleaving

  /** A session has an entry exactly while it is registered and not yet released, or for ever if
      it was registered after its release. */
  ghost predicate EntryExact(st: State, s: SessionId) {
    && (s in st.sh.bindings.sessionDevices <==> s in st.h.bound && (Unbind(s) !in st.h.log || s in st.h.late))
    && (s in st.sh.bindings.sessionDevices ==>
          s in st.h.creator && st.sh.bindings.sessionDevices[s] == st.h.creator[s].device)
    && (s in st.h.late ==> s in st.h.bound && Unbind(s) in st.h.log)
  }

  ghost predicate EntriesExact(st: State) {
    forall s :: EntryExact(st, s)
  }

  ghost predicate AllRegistered(st: State) {
    forall s | Known(st, s) :: s in st.h.bound || AtRegister(st, s)
  }

  ghost predicate Loose(st: State) {
    PointsBack(st.sh.bindings) && EntriesExact(st) && AllRegistered(st)
  }

  /** The step is neither a registration nor a release. */
  ghost predicate MapsUntouched(st: State, st': State) {
    && st'.sh.bindings == st.sh.bindings && st'.h.bound == st.h.bound && st'.h.late == st.h.late
    && (forall s :: Unbind(s) in st'.h.log <==> Unbind(s) in st.h.log)
    && (forall s <- st.h.creator :: s in st'.h.creator && st'.h.creator[s] == st.h.creator[s])
  }

  predicate Releases(pc: Pc) {
    pc.Tearing? && pc.prog != [] && pc.prog[0].Unbind?
  }

  lemma TearUntouched(st: State, t: ThreadId, prog: seq<Instr>, reaper: bool)
    requires prog == [] || !prog[0].Unbind?
    ensures MapsUntouched(st, TearStep(st, t, prog, reaper))
  {
  }

  lemma StepUntouched(st: State, t: ThreadId, c: Choice)
    requires CanGo(st, t, c) && !st.threads[t].Register? && !Releases(st.threads[t])
    ensures MapsUntouched(st, Step(st, t, c))
  {
    match st.threads[t]
    case Tearing(prog, reaper) => TearUntouched(st, t, prog, reaper);
    case _ =>
  }

  lemma UntouchedKeepsEntries(st: State, st': State)
    requires EntriesExact(st) && MapsUntouched(st, st')
    ensures EntriesExact(st')
  {
    forall s ensures EntryExact(st', s) {
      assert EntryExact(st, s);
    }
  }

  lemma RegisterKeepsEntries(st: State, t: ThreadId, d: DeviceId, id: SessionId)
    requires EntriesExact(st) && t in st.threads && st.threads[t] == Register(d, id) && PcOk(st, t, st.threads[t])
    ensures EntriesExact(RegisterStep(st, t, d, id))
  {
    forall s ensures EntryExact(RegisterStep(st, t, d, id), s) {
      assert EntryExact(st, s);
    }
  }

  lemma RegisterPointsBack(st: State, t: ThreadId, d: DeviceId, id: SessionId)
    requires PointsBack(st.sh.bindings) && EntryExact(st, id) && id !in st.h.bound
    ensures PointsBack(RegisterStep(st, t, d, id).sh.bindings)
  {
  }

  lemma ReleaseKeepsEntries(st: State, t: ThreadId, prog: seq<Instr>, reaper: bool)
    requires EntriesExact(st) && prog != [] && prog[0].Unbind? && prog[0] !in st.h.log
    ensures EntriesExact(TearStep(st, t, prog, reaper))
  {
    var st' := TearStep(st, t, prog, reaper);
    forall s ensures EntryExact(st', s) {
      assert EntryExact(st, s);
      assert Unbind(s) in st'.h.log <==> Unbind(s) in st.h.log || s == prog[0].id;
    }
  }

  /** Only inserting makes a session known, and it leaves the inserting handler at Register. */
  lemma StepKeepsRegistered(st: State, t: ThreadId, c: Choice)
    requires Structure(st) && AllRegistered(st) && CanGo(st, t, c)
    ensures AllRegistered(Step(st, t, c))
  {
    var st' := Step(st, t, c);
    StepKnown(st, t, c);
    StepCreators(st, t, c);
    assert PcOk(st, t, st.threads[t]);
    forall s | Known(st', s) ensures s in st'.h.bound || AtRegister(st', s) {
      if Known(st, s) {
        StillRegistered(st, t, c, s);
      } else {
        NewAtRegister(st, t, c, s);
      }
    }
  }

  lemma StillRegistered(st: State, t: ThreadId, c: Choice, s: SessionId)
    requires CanGo(st, t, c) && (s in st.h.bound || AtRegister(st, s))
    requires s in st.h.creator ==> s in Step(st, t, c).h.creator && Step(st, t, c).h.creator[s] == st.h.creator[s]
    requires st.h.bound <= Step(st, t, c).h.bound
    ensures s in Step(st, t, c).h.bound || AtRegister(Step(st, t, c), s)
  {
    OthersStand(st, t, c);
    if st.threads[t].Register? {
      assert Step(st, t, c) == RegisterStep(st, t, st.threads[t].device, st.threads[t].id);
    }
  }

  lemma OthersStand(st: State, t: ThreadId, c: Choice)
    requires CanGo(st, t, c)
    ensures t in Step(st, t, c).threads && Step(st, t, c).threads == st.threads[t := Step(st, t, c).threads[t]]
  {
  }

  lemma NewAtRegister(st: State, t: ThreadId, c: Choice, s: SessionId)
    requires CanGo(st, t, c) && st.threads[t].Insert? && st.threads[t].id == s && PcOk(st, t, st.threads[t])
    ensures AtRegister(Step(st, t, c), s)
  {
  }

  lemma StepCreators(st: State, t: ThreadId, c: Choice)
    requires CanGo(st, t, c)
    ensures forall s <- st.h.creator :: s in Step(st, t, c).h.creator && Step(st, t, c).h.creator[s] == st.h.creator[s]
    ensures st.h.bound <= Step(st, t, c).h.bound
  {
  }

  lemma StepKnown(st: State, t: ThreadId, c: Choice)
    requires CanGo(st, t, c)
    ensures forall s | Known(Step(st, t, c), s) && !Known(st, s) ::
      st.threads[t].Insert? && st.threads[t].id == s
  {
  }

  lemma StepKeepsMaps(st: State, t: ThreadId, c: Choice)
    requires Structure(st) && PointsBack(st.sh.bindings) && EntriesExact(st) && CanGo(st, t, c)
    ensures PointsBack(Step(st, t, c).sh.bindings) && EntriesExact(Step(st, t, c))
  {
    var pc := st.threads[t];
    assert PcOk(st, t, pc);
    if pc.Register? {
      assert EntryExact(st, pc.id);
      RegisterPointsBack(st, t, pc.device, pc.id);
      RegisterKeepsEntries(st, t, pc.device, pc.id);
    } else if Releases(pc) {
      assert pc.prog[0] in pc.prog;
      ReleaseKeepsEntries(st, t, pc.prog, pc.reaper);
    } else {
      StepUntouched(st, t, c);
      UntouchedKeepsEntries(st, Step(st, t, c));
    }
  }

  lemma IdleKeepsLoose(st: State, a: Action)
    requires Structure(st) && Loose(st) && Enabled(st, a) && !a.Go?
    ensures Loose(Next(st, a))
  {
    var st' := Next(st, a);
    UntouchedKeepsEntries(st, st');
    forall s | Known(st', s) ensures s in st'.h.bound || AtRegister(st', s) {
      assert Known(st, s);
    }
  }

  lemma NextKeepsLoose(st: State, st': State)
    requires Structure(st) && Loose(st) && Follows(st, st')
    ensures Loose(st')
  {
    var a :| Enabled(st, a) && st' == Next(st, a);
    if a.Go? {
      StepKeepsMaps(st, a.t, a.c);
      StepKeepsRegistered(st, a.t, a.c);
    } else {
      IdleKeepsLoose(st, a);
    }
  }

  lemma StepAtLoose(run: seq<State>, n: nat)
    requires IsRun(run) && n + 1 < |run| && Loose(run[n])
    ensures Loose(run[n + 1])
  {
    RunInvariant(run, n);
    assert StepAt(run, n);
    NextKeepsLoose(run[n], run[n + 1]);
  }

  lemma {:induction false} RunLoose(run: seq<State>, n: nat)
    requires IsRun(run) && n < |run|
    ensures Loose(run[n])
  {
    if n > 0 {
      RunLoose(run, n - 1);
      StepAtLoose(run, n - 1);
    }
  }

  /** Under every schedule, overlapping creates of one device included: a device entry points to
      a session that points back, and a session has an entry exactly while it is registered and
      not released, or if its registration came after its release. */
  lemma BindingsUnconditional(run: seq<State>, n: nat)
    requires IsRun(run) && n < |run|
    ensures var st := run[n];
      && PointsBack(st.sh.bindings)
      && forall s :: s in st.sh.bindings.sessionDevices
                     <==> s in st.h.bound && (Unbind(s) !in st.h.log || s in st.h.late)
  {
    RunLoose(run, n);
    var st := run[n];
    forall s ensures s in st.sh.bindings.sessionDevices
                     <==> s in st.h.bound && (Unbind(s) !in st.h.log || s in st.h.late)
    {
      assert EntryExact(st, s);
    }
  }

  // ----- when creates of one device do not overlap

  ghost predicate NoOverlap(st: State) {
    forall t <- st.threads, u <- st.threads | t != u && Creating(st.threads[t]) && Creating(st.threads[u]) ::
      st.threads[t].device != st.threads[u].device
  }

  /** A device with a create past its check has no entry. */
  ghost predicate CreatorsFree(st: State) {
    forall t <- st.threads | Creating(st.threads[t]) :: !HasSession(st.sh.bindings, st.threads[t].device)
  }

  ghost predicate Tight(st: State) {
    PointsForth(st.sh.bindings) && CreatorsFree(st)
  }

  lemma RegisterKeepsTight(st: State, t: ThreadId, d: DeviceId, id: SessionId)
    requires Tight(st) && NoOverlap(st) && t in st.threads && st.threads[t] == Register(d, id)
    ensures Tight(RegisterStep(st, t, d, id))
  {
    BindKeepsForth(st.sh.bindings, d, id);
    var st' := RegisterStep(st, t, d, id);
    forall u | u in st'.threads && Creating(st'.threads[u])
      ensures !HasSession(st'.sh.bindings, st'.threads[u].device)
    {
      assert u != t && u in st.threads && st'.threads[u] == st.threads[u];
    }
  }

  lemma TearKeepsTight(st: State, t: ThreadId, prog: seq<Instr>, reaper: bool)
    requires Tight(st) && t in st.threads && st.threads[t] == Tearing(prog, reaper)
    ensures Tight(TearStep(st, t, prog, reaper))
  {
    if prog != [] && prog[0].Unbind? {
      ReleaseKeepsForth(st.sh.bindings, prog[0].id);
    }
    var st' := TearStep(st, t, prog, reaper);
    forall u | u in st'.threads && Creating(st'.threads[u])
      ensures !HasSession(st'.sh.bindings, st'.threads[u].device)
    {
      assert u != t && u in st.threads && st'.threads[u] == st.threads[u];
    }
  }

  lemma OtherStepKeepsTight(st: State, t: ThreadId, c: Choice)
    requires Tight(st) && CanGo(st, t, c) && !st.threads[t].Register? && !st.threads[t].Tearing?
    ensures Tight(Step(st, t, c))
  {
    var st' := Step(st, t, c);
    assert st'.sh.bindings == st.sh.bindings;
    forall u | u in st'.threads && Creating(st'.threads[u])
      ensures !HasSession(st'.sh.bindings, st'.threads[u].device)
    {
      assert u in st.threads;
      assert u != t ==> st'.threads[u] == st.threads[u];
    }
  }

  lemma NextKeepsTight(st: State, st': State)
    requires Tight(st) && NoOverlap(st) && Follows(st, st')
    ensures Tight(st')
  {
    var a :| Enabled(st, a) && st' == Next(st, a);
    if a.Go? {
      var pc := st.threads[a.t];
      if pc.Register? {
        RegisterKeepsTight(st, a.t, pc.device, pc.id);
      } else if pc.Tearing? {
        TearKeepsTight(st, a.t, pc.prog, pc.reaper);
      } else {
        OtherStepKeepsTight(st, a.t, a.c);
      }
    }
  }

  lemma StepAtTight(run: seq<State>, n: nat)
    requires IsRun(run) && n + 1 < |run| && Tight(run[n]) && NoOverlap(run[n])
    ensures Tight(run[n + 1])
  {
    assert StepAt(run, n);
    NextKeepsTight(run[n], run[n + 1]);
  }

  lemma {:induction false} RunTight(run: seq<State>, n: nat)
    requires IsRun(run) && n < |run| && forall i: nat | i <= n :: NoOverlap(run[i])
    ensures Tight(run[n])
  {
    if n > 0 {
      RunTight(run, n - 1);
      StepAtTight(run, n - 1);
    }
  }

  /** The session is registered, and not released or registered only after its release. */
  predicate Holding(st: State, d: DeviceId, s: SessionId) {
    s in st.h.creator && st.h.creator[s].device == d
    && s in st.h.bound && (Unbind(s) !in st.h.log || s in st.h.late)
  }

  lemma DeviceEntry(st: State, d: DeviceId)
    requires Loose(st) && Tight(st)
    ensures HasSession(st.sh.bindings, d) <==> exists s :: Holding(st, d, s)
  {
    if HasSession(st.sh.bindings, d) {
      var s := st.sh.bindings.deviceSessions[d];
      assert EntryExact(st, s);
      assert Holding(st, d, s);
    }
    if s :| Holding(st, d, s) {
      assert EntryExact(st, s);
    }
  }

  /** Sessions made for one device: at most one is not yet released. */
  ghost predicate OnePerDevice(st: State) {
    forall s, s' | Unreleased(st, s) && Unreleased(st, s')
                   && s in st.h.creator && s' in st.h.creator && st.h.creator[s].device == st.h.creator[s'].device
      :: s == s'
  }

  lemma UnreleasedIsEntryOrPending(st: State, s: SessionId)
    requires RegistryOk(st) && Loose(st) && Tight(st) && Unreleased(st, s)
    ensures s in st.h.creator
    ensures var d := st.h.creator[s].device;
      || (HasSession(st.sh.bindings, d) && st.sh.bindings.deviceSessions[d] == s)
      || (AtRegister(st, s) && !HasSession(st.sh.bindings, d))
  {
    assert EntryExact(st, s);
    if s in st.h.bound {
      assert st.sh.bindings.sessionDevices[s] == st.h.creator[s].device;
    } else {
      assert AtRegister(st, s);
      assert Creating(st.threads[st.h.creator[s].thread]);
    }
  }

  lemma TightMeansOne(st: State)
    requires RegistryOk(st) && Loose(st) && Tight(st) && NoOverlap(st)
    ensures OnePerDevice(st)
  {
    forall s, s' | Unreleased(st, s) && Unreleased(st, s')
                   && s in st.h.creator && s' in st.h.creator && st.h.creator[s].device == st.h.creator[s'].device
      ensures s == s'
    {
      UnreleasedIsEntryOrPending(st, s);
      UnreleasedIsEntryOrPending(st, s');
    }
  }

  /** If no two creates of one device are ever in flight together, then in every state the two
      maps are mutual inverses, a device has at most one session not yet released, and the
      device check answers yes exactly for the devices of registered sessions that are not
      released (or that were registered too late to be released). */
  lemma BindingsWithoutOverlap(run: seq<State>, n: nat)
    requires IsRun(run) && n < |run| && forall i: nat | i <= n :: NoOverlap(run[i])
    ensures var st := run[n];
      && MutualInverses(st.sh.bindings)
      && OnePerDevice(st)
      && forall d :: HasSession(st.sh.bindings, d) <==> exists s :: Holding(st, d, s)
  {
    RunInvariant(run, n);
    RunLoose(run, n);
    RunTight(run, n);
    TightMeansOne(run[n]);
    forall d ensures HasSession(run[n].sh.bindings, d) <==> exists s :: Holding(run[n], d, s) {
      DeviceEntry(run[n], d);
    }
  }

  // ----- shutdown

  /** At rest after Close, the entries left behind are exactly the sessions that were registered
      after their own release: the maps are empty if and only if every registration preceded
      its release. */
  lemma DrainLeavesOnlyLate(run: seq<State>, n: nat)
    requires IsRun(run) && n < |run| && AtRest(run[n])
    requires run[n].h.drained && !run[n].h.insertedAfterClose
    ensures run[n].sh.bindings.sessionDevices.Keys == run[n].h.late
    ensures run[n].sh.bindings == EMPTY <==> run[n].h.late == {}
  {
    RunInvariant(run, n);
    RunLoose(run, n);
    RunEmptiedStays(run, n);
    RestEntries(run[n]);
  }

  lemma RestEntries(st: State)
    requires Structure(st) && Loose(st) && AtRest(st) && st.sh.sessions == map[]
    ensures st.sh.bindings.sessionDevices.Keys == st.h.late
    ensures st.sh.bindings == EMPTY <==> st.h.late == {}
  {
    forall s ensures s in st.sh.bindings.sessionDevices <==> s in st.h.late {
      assert EntryExact(st, s);
      if s in st.h.bound {
        RemovedSession(st, s);
      }
    }
    assert st.sh.bindings.sessionDevices.Keys == {} ==> st.sh.bindings.sessionDevices == map[];
    assert st.sh.bindings.sessionDevices == map[] ==> st.sh.bindings.deviceSessions == map[];
  }
}

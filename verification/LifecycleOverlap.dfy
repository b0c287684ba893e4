/** What two overlapping creates of one device can do: exactly then does the device check fail to
    keep its promise. */
module LifecycleOverlap {
  import opened Common
  import opened Bindings
  import opened Teardown
  import opened Lifecycle
  import opened LifecycleInvariant
  import opened LifecycleTheorems
  import opened LifecycleBindings
  import opened LifecycleReach
  import opened LifecycleShutdown

  /** Two handlers of one device, both past the check. */
  ghost predicate Overlap(st: State, t: ThreadId, u: ThreadId) {
    && t != u && t in st.threads && u in st.threads && Creating(st.threads[t]) && Creating(st.threads[u])
    && st.threads[t].device == st.threads[u].device
  }

  // ----- one create, up to its registration

  /** Still without a slot. */
  predicate Slotless(pc: Pc) {
    pc.Load? || pc.Cas?
  }

  function Needs(pc: Pc): nat {
    if Slotless(pc) then 1 else 0
  }

  /** The id under which a handler registers: its own, or a new one. */
  function OwnId(pc: Pc, newId: SessionId): SessionId {
    if pc.Insert? || pc.Register? then pc.id else newId
  }

  /** Steps to the registration. */
  function Ahead(st: State, pc: Pc): nat {
    match pc
    case Load(_) => 6
    case Cas(_, seen) => if seen == st.sh.active then 5 else 7
    case Challenge(_) => 4
    case Throttle(_) => 3
    case Provision(_) => 2
    case Insert(_, _, _) => 1
    case _ => 0
  }

  /** `t` alone has moved on with its create; `id` is the only id that was issued. */
  ghost predicate Advanced(st: State, st': State, t: ThreadId, id: SessionId) {
    && t in st.threads && t in st'.threads && st'.threads == st.threads[t := st'.threads[t]]
    && Creating(st.threads[t]) && Creating(st'.threads[t]) && st'.threads[t].device == st.threads[t].device
    && OwnId(st'.threads[t], id) == OwnId(st.threads[t], id)
    && st'.max == st.max && st'.h.log == st.h.log && st'.sh.bindings == st.sh.bindings
    && (forall s <- st'.h.creator :: s in st.h.creator || s == id)
    && (forall s <- st.sh.sessions :: s in st'.sh.sessions)
    && (st'.threads[t].Register? && !st.threads[t].Register? ==> st'.threads[t].id in st'.sh.sessions)
    && st'.stopping == st.stopping
    && st'.sh.active + Needs(st'.threads[t]) == st.sh.active + Needs(st.threads[t])
  }

  lemma Advance(start: State, st: State, t: ThreadId, id: SessionId) returns (st': State)
    requires From(start, st) && t in st.threads && Creating(st.threads[t]) && !st.threads[t].Register?
    requires st.sh.active + Needs(st.threads[t]) <= st.max && (Ahead(st, st.threads[t]) >= 2 ==> id !in st.h.creator)
    ensures From(start, st') && Advanced(st, st', t, id)
    ensures Ahead(st', st'.threads[t]) < Ahead(st, st.threads[t])
    ensures st'.threads[t].Insert? || st'.threads[t].Register? || st'.h.creator == st.h.creator
  {
    st' := GoOn(start, st, t, if st.threads[t].Provision? then Issue(id) else Pass);
  }

  lemma AdvancedOn(a: State, b: State, c: State, t: ThreadId, id: SessionId)
    requires Advanced(a, b, t, id) && Advanced(b, c, t, id)
    ensures Advanced(a, c, t, id)
  {
  }

  /** A create past its check can run up to its registration, if its slot is there. */
  lemma {:induction false} ToRegister(start: State, st: State, t: ThreadId, id: SessionId) returns (st': State)
    requires From(start, st) && t in st.threads && Creating(st.threads[t])
    requires st.sh.active + Needs(st.threads[t]) <= st.max && (Ahead(st, st.threads[t]) >= 2 ==> id !in st.h.creator)
    ensures From(start, st') && Advanced(st, st', t, id) && st'.threads[t].Register?
    decreases Ahead(st, st.threads[t])
  {
    if st.threads[t].Register? {
      st' := st;
    } else {
      var next := Advance(start, st, t, id);
      st' := ToRegister(start, next, t, id);
      AdvancedOn(st, next, st', t, id);
    }
  }

  lemma RegisterOn(start: State, st: State, t: ThreadId) returns (st': State)
    requires From(start, st) && t in st.threads && st.threads[t].Register?
    ensures From(start, st') && st' == RegisterStep(st, t, st.threads[t].device, st.threads[t].id)
  {
    st' := GoOn(start, st, t, Pass);
  }

  lemma DifferentIds(start: State, st: State, t: ThreadId, u: ThreadId)
    requires From(start, st) && Overlap(st, t, u) && st.threads[t].Register? && st.threads[u].Register?
    ensures st.threads[t].id != st.threads[u].id
  {
    FromInvariant(start, st);
    assert PcOk(st, t, st.threads[t]) && PcOk(st, u, st.threads[u]);
  }

  /** Two registrations of one device, whatever the maps were before. */
  lemma BothRegister(start: State, st: State, t: ThreadId, u: ThreadId) returns (st': State)
    requires From(start, st) && Overlap(st, t, u) && st.threads[t].Register? && st.threads[u].Register?
    ensures From(start, st') && !MutualInverses(st'.sh.bindings)
    ensures st'.sh.sessions == st.sh.sessions && st'.h.log == st.h.log && st'.h.creator == st.h.creator
         && st'.h.removedBy == st.h.removedBy
  {
    DifferentIds(start, st, t, u);
    var a, b, d := st.threads[t].id, st.threads[u].id, st.threads[t].device;
    var one := RegisterOn(start, st, t);
    st' := RegisterOn(start, one, u);
    assert st'.sh.bindings.sessionDevices[a] == d && st'.sh.bindings.deviceSessions[d] == b;
  }

  // ----- every overlap can break the maps

  /** Everybody but `t` and `u` comes to rest, and the registry is emptied. */
  lemma Quieten(start: State, st: State, t: ThreadId, u: ThreadId) returns (st': State)
    requires From(start, st) && Overlap(st, t, u)
    ensures From(start, st') && st'.max == st.max && st'.h.creator == st.h.creator && Overlap(st', t, u)
    ensures st'.threads[t] == st.threads[t] && st'.threads[u] == st.threads[u]
    ensures st'.sh.sessions == map[] && st'.sh.active == |Holders(st'.threads)| && Holders(st'.threads) <= {t, u}
    ensures st'.sh.active <= st'.max
  {
    st' := EmptyAround(start, st, {t, u});
    OnlyTwoHold(start, st', t, u);
  }

  lemma OnlyTwoHold(start: State, st: State, t: ThreadId, u: ThreadId)
    requires From(start, st) && Overlap(st, t, u) && forall r <- st.threads | r != t && r != u :: Resting(st.threads[r])
    ensures st.sh.active == |Holders(st.threads)| + |st.sh.sessions| <= st.max && Holders(st.threads) <= {t, u}
  {
    FromInvariant(start, st);
    assert Owing(st) == {};
    assert |st.sh.sessions| == |st.sh.sessions.Keys|;
    forall r | r in Holders(st.threads) ensures r == t || r == u {
      assert PcOk(st, r, st.threads[r]);
    }
  }

  /** The slots of the two, once nobody else has one. */
  lemma HoldersOfTwo(threads: map<ThreadId, Pc>, t: ThreadId, u: ThreadId)
    requires t != u && t in threads && u in threads && Holders(threads) <= {t, u}
    ensures |Holders(threads)| == (if Holds(threads[t]) then 1 else 0) + (if Holds(threads[u]) then 1 else 0)
  {
    assert Holders(threads) == (if Holds(threads[t]) then {t} else {}) + (if Holds(threads[u]) then {u} else {});
  }

  /** The same, once `t`, which goes first if only one of them has a slot, is about to register:
      whatever the cap, the other one then finds a slot. */
  lemma BreakInOrder(start: State, st: State, t: ThreadId, u: ThreadId, a: SessionId, b: SessionId) returns (st': State)
    requires From(start, st) && Overlap(st, t, u) && st.max >= 1 && (Holds(st.threads[u]) ==> Holds(st.threads[t]))
    requires a != b && a !in st.h.creator && b !in st.h.creator
    ensures From(start, st') && !MutualInverses(st'.sh.bindings)
  {
    var quiet := Quieten(start, st, t, u);
    HoldersOfTwo(quiet.threads, t, u);
    var first := ToRegister(start, quiet, t, a);
    var alone := Quieten(start, first, t, u);
    HoldersOfTwo(alone.threads, t, u);
    var both := ToRegister(start, alone, u, b);
    st' := BothRegister(start, both, t, u);
  }

  /** Everybody but `t` and `u` comes to rest, and no session is left but theirs: the other ones
      can be destroyed by those who were given their ids. */
  lemma QuietenAround(start: State, st: State, t: ThreadId, u: ThreadId) returns (st': State)
    requires From(start, st) && Overlap(st, t, u)
    ensures From(start, st') && SameServer(st, st') && Overlap(st', t, u)
    ensures st'.threads[t] == st.threads[t] && st'.threads[u] == st.threads[u]
    ensures NotRemoved(st, t) ==> NotRemoved(st', t)
    ensures NotRemoved(st, u) ==> NotRemoved(st', u)
    ensures st'.sh.active + Needs(st'.threads[t]) + Needs(st'.threads[u]) <= 2
  {
    var calm := FinishAll(start, st, st.threads.Keys - {t, u});
    KnownOrOwn(start, calm, t, u);
    st' := DestroyEach(start, calm, calm.sh.sessions.Keys - OwnIds(st.threads[t]) - OwnIds(st.threads[u]));
    OnlyTwoHold(start, st', t, u);
    OneEach(st', t, u);
  }

  lemma KnownOrOwn(start: State, st: State, t: ThreadId, u: ThreadId)
    requires From(start, st) && Overlap(st, t, u) && forall r <- st.threads | r != t && r != u :: Resting(st.threads[r])
    ensures forall s <- st.sh.sessions :: s in st.h.bound || s in OwnIds(st.threads[t]) || s in OwnIds(st.threads[u])
  {
    LeadsReachable(start, st);
    var run :| IsRun(run) && run[|run| - 1] == st;
    RunLoose(run, |run| - 1);
    forall s | s in st.sh.sessions ensures s in st.h.bound || s in OwnIds(st.threads[t]) || s in OwnIds(st.threads[u]) {
      assert Known(st, s);
      if AtRegister(st, s) {
        var r := st.h.creator[s].thread;
        assert !Resting(st.threads[r]);
      }
    }
  }

  function OwnIds(pc: Pc): set<SessionId> {
    if pc.Register? then {pc.id} else {}
  }

  /** The session that `t` is about to register has not left the registry. */
  predicate NotRemoved(st: State, t: ThreadId)
    requires t in st.threads
  {
    st.threads[t].Register? ==> st.threads[t].id in st.sh.sessions
  }

  /** Each of the two has a slot, owns a session with one, or needs one. */
  lemma OneEach(st: State, t: ThreadId, u: ThreadId)
    requires Overlap(st, t, u) && Holders(st.threads) <= {t, u}
    requires st.sh.active == |Holders(st.threads)| + |st.sh.sessions|
    requires st.sh.sessions.Keys <= OwnIds(st.threads[t]) + OwnIds(st.threads[u])
    ensures st.sh.active + Needs(st.threads[t]) + Needs(st.threads[u]) <= 2
  {
    HoldersOfTwo(st.threads, t, u);
    SubsetSize(st.sh.sessions.Keys, OwnIds(st.threads[t]) + OwnIds(st.threads[u]));
    UnionSize(OwnIds(st.threads[t]), OwnIds(st.threads[u]));
    assert |st.sh.sessions| == |st.sh.sessions.Keys|;
  }

  /** With two slots nothing of the two has to be removed. */
  lemma BreakWithTwoSlots(start: State, st: State, t: ThreadId, u: ThreadId, a: SessionId,
                          b: SessionId) returns (st': State)
    requires From(start, st) && Overlap(st, t, u) && st.max >= 2
    requires a != b && a !in st.h.creator && b !in st.h.creator
    ensures From(start, st') && !MutualInverses(st'.sh.bindings)
  {
    var quiet := QuietenAround(start, st, t, u);
    var first := ToRegister(start, quiet, t, a);
    var both := ToRegister(start, first, u, b);
    st' := BothRegister(start, both, t, u);
  }

  lemma {:induction false} LongerThan(ids: set<SessionId>) returns (n: nat)
    ensures forall s <- ids :: |s| < n
  {
    if ids == {} {
      n := 0;
    } else {
      var s :| s in ids;
      var m := LongerThan(ids - {s});
      n := if |s| < m then m else |s| + 1;
      assert forall r <- ids :: r == s || r in ids - {s};
    }
  }

  lemma TwoFreshIds(ids: set<SessionId>) returns (a: SessionId, b: SessionId)
    ensures a != b && a !in ids && b !in ids
  {
    var n := LongerThan(ids);
    a, b := seq(n, _ => 'x'), seq(n + 1, _ => 'x');
    assert |a| != |b|;
  }

  lemma PositiveCap(st: State)
    requires Reachable(st)
    ensures st.max >= 1
  {
    var run :| IsRun(run) && run[|run| - 1] == st;
    RunGrows(run, 0, |run| - 1);
  }

  /** From every reachable state in which two creates of one device overlap, at whatever program
      counters and however full the server, the two can run on, past no further device check, to
      maps that are not inverses. */
  lemma OverlapBreaksInverses(st: State, t: ThreadId, u: ThreadId) returns (st': State)
    requires Reachable(st) && Overlap(st, t, u)
    ensures Leads(st, st') && !MutualInverses(st'.sh.bindings)
  {
    LeadsSelf(st);
    PositiveCap(st);
    var a, b := TwoFreshIds(st.h.creator.Keys);
    if st.max >= 2 {
      st' := BreakWithTwoSlots(st, st, t, u, a, b);
    } else if Holds(st.threads[u]) {
      st' := BreakInOrder(st, st, u, t, a, b);
    } else {
      st' := BreakInOrder(st, st, t, u, a, b);
    }
  }

  // ----- and nothing else can

  /** Without further device checks no new create joins those in flight. */
  lemma CalmKeepsApart(st: State, st': State)
    requires NoOverlap(st) && CalmlyFollows(st, st')
    ensures NoOverlap(st')
  {
    var a :| Enabled(st, a) && Calm(st, a) && st' == Next(st, a);
    if a.Go? {
      StepCreating(st, a.t, a.c);
    }
  }

  lemma StepCreating(st: State, t: ThreadId, c: Choice)
    requires CanGo(st, t, c) && !st.threads[t].CheckDevice?
    ensures var st' := Step(st, t, c);
      && (forall u <- st'.threads | u != t :: u in st.threads && st'.threads[u] == st.threads[u])
      && (Creating(st'.threads[t]) ==> Creating(st.threads[t]) && st'.threads[t].device == st.threads[t].device)
  {
    OthersStand(st, t, c);
    if Creating(Step(st, t, c).threads[t]) {
      OwnDevice(st, t, c);
    }
  }

  lemma OwnDevice(st: State, t: ThreadId, c: Choice)
    requires CanGo(st, t, c) && !st.threads[t].CheckDevice?
    requires t in Step(st, t, c).threads && Creating(Step(st, t, c).threads[t])
    ensures Creating(st.threads[t]) && Step(st, t, c).threads[t].device == st.threads[t].device
  {
  }

  lemma CalmKeepsTight(st: State, st': State)
    requires NoOverlap(st) && Tight(st) && CalmlyFollows(st, st')
    ensures NoOverlap(st') && Tight(st')
  {
    CalmKeepsApart(st, st');
    var a :| Enabled(st, a) && Calm(st, a) && st' == Next(st, a);
    NextKeepsTight(st, st');
  }

  lemma PathKeepsTight(path: seq<State>, n: nat)
    requires CalmPath(path) && NoOverlap(path[0]) && Tight(path[0]) && n < |path|
    ensures NoOverlap(path[n]) && Tight(path[n])
  {
    forall st, st' | NoOverlap(st) && Tight(st) && CalmlyFollows(st, st') ensures NoOverlap(st') && Tight(st') {
      CalmKeepsTight(st, st');
    }
    PathInduction(path, n, st => NoOverlap(st) && Tight(st));
  }

  lemma ApartKeepsInverses(st: State, st': State)
    requires Reachable(st) && NoOverlap(st) && Tight(st) && Leads(st, st')
    ensures MutualInverses(st'.sh.bindings)
  {
    var path :| CalmPath(path) && path[0] == st && path[|path| - 1] == st';
    PathKeepsTight(path, |path| - 1);
    LeadsReachable(st, st');
    var run :| IsRun(run) && run[|run| - 1] == st';
    RunLoose(run, |run| - 1);
  }

  /** In a server that has kept its creates apart so far, the maps stay mutual inverses, however
      those in flight go on, if and only if no two of them are for one device. */
  lemma OverlapDecides(run: seq<State>, n: nat)
    requires IsRun(run) && n < |run| && forall i: nat | i < n :: NoOverlap(run[i])
    ensures NoOverlap(run[n]) <==> forall st' | Leads(run[n], st') :: MutualInverses(st'.sh.bindings)
  {
    PrefixReachable(run, n);
    if n > 0 {
      RunTight(run, n - 1);
      StepAtTight(run, n - 1);
    }
    if NoOverlap(run[n]) {
      forall st' | Leads(run[n], st') ensures MutualInverses(st'.sh.bindings) {
        ApartKeepsInverses(run[n], st');
      }
    } else {
      var t, u := SomeOverlap(run[n]);
      var st' := OverlapBreaksInverses(run[n], t, u);
    }
  }

  lemma SomeOverlap(st: State) returns (t: ThreadId, u: ThreadId)
    requires !NoOverlap(st)
    ensures Overlap(st, t, u)
  {
    t, u :| t in st.threads && u in st.threads && t != u && Creating(st.threads[t]) && Creating(st.threads[u])
            && st.threads[t].device == st.threads[u].device;
  }

  lemma PrefixReachable(run: seq<State>, n: nat)
    requires IsRun(run) && n < |run|
    ensures Reachable(run[n])
  {
    var prefix := run[..n + 1];
    forall i: nat | i + 1 < |prefix| ensures StepAt(prefix, i) {
      assert StepAt(run, i);
    }
    assert IsRun(prefix) && prefix[|prefix| - 1] == run[n];
  }

  // ----- two sessions at once

  /** The binding that `t` is about to make has not been released already. */
  predicate NotReleased(st: State, t: ThreadId)
    requires t in st.threads
  {
    st.threads[t].Register? ==> Unbind(st.threads[t].id) !in st.h.log
  }

  /** The id that `t` will register is not released: a new one never is. */
  lemma OwnUnreleased(start: State, st: State, t: ThreadId, id: SessionId)
    requires From(start, st) && t in st.threads && Creating(st.threads[t]) && NotReleased(st, t) && id !in st.h.creator
    ensures Unbind(OwnId(st.threads[t], id)) !in st.h.log
  {
    FromInvariant(start, st);
    NotLogged(st, t, id);
  }

  lemma NotLogged(st: State, t: ThreadId, id: SessionId)
    requires LogOk(st) && RegistryOk(st) && t in st.threads && PcOk(st, t, st.threads[t])
    requires Creating(st.threads[t]) && NotReleased(st, t) && id !in st.h.creator
    ensures Unbind(OwnId(st.threads[t], id)) !in st.h.log
  {
    assert forall i <- st.h.log :: i.id in st.h.removedBy;
  }

  lemma TwoUnreleased(start: State, st: State, t: ThreadId, u: ThreadId)
    requires From(start, st) && Overlap(st, t, u) && st.threads[t].Register? && st.threads[u].Register?
    requires NotReleased(st, t) && NotReleased(st, u)
    ensures !SameSession(st, st.threads[t].id, st.threads[u].id)
  {
    FromInvariant(start, st);
    DifferentIds(start, st, t, u);
    assert PcOk(st, t, st.threads[t]) && PcOk(st, u, st.threads[u]);
  }

  /** Not two unreleased sessions of one device. */
  ghost predicate SameSession(st: State, a: SessionId, b: SessionId) {
    (Unreleased(st, a) && Unreleased(st, b) && a in st.h.creator && b in st.h.creator
     && st.h.creator[a].device == st.h.creator[b].device) ==> a == b
  }

  /** If there is room for the two, and neither is about to bind a session already released, they
      can run on to two sessions of the device, neither of them released, and to maps that are
      not inverses. */
  lemma RoomGivesTwoSessions(start: State, st: State, t: ThreadId, u: ThreadId) returns (st': State)
    requires From(start, st) && Overlap(st, t, u) && NotReleased(st, t) && NotReleased(st, u)
    requires st.sh.active + Needs(st.threads[t]) + Needs(st.threads[u]) <= st.max
    ensures From(start, st') && !OnePerDevice(st') && !MutualInverses(st'.sh.bindings)
  {
    var a, b := TwoFreshIds(st.h.creator.Keys);
    OwnUnreleased(start, st, t, a);
    OwnUnreleased(start, st, u, b);
    var first := ToRegister(start, st, t, a);
    var both := ToRegister(start, first, u, b);
    TwoUnreleased(start, both, t, u);
    st' := BothRegister(start, both, t, u);
    assert !SameSession(st', both.threads[t].id, both.threads[u].id);
  }

  /** With one slot a device has one session: an unreleased session still owns its slot. */
  lemma OneSlotOneSession(st: State)
    requires Reachable(st) && st.max <= 1
    ensures OnePerDevice(st)
  {
    ReachableInvariant(st);
    forall s, s' | Unreleased(st, s) && Unreleased(st, s') ensures s == s' {
      UnreleasedOwnsSlot(st, s);
      UnreleasedOwnsSlot(st, s');
      OneOwner(st, s, s');
    }
  }

  lemma OneOwner(st: State, s: SessionId, s': SessionId)
    requires SlotsConserved(st) && st.max <= 1 && st.sh.sessions.Keys !! Owing(st)
    requires s in st.sh.sessions.Keys + Owing(st) && s' in st.sh.sessions.Keys + Owing(st)
    ensures s == s'
  {
    SubsetSize({s, s'}, st.sh.sessions.Keys + Owing(st));
    assert |st.sh.sessions.Keys + Owing(st)| == |st.sh.sessions.Keys| + |Owing(st)|;
  }

  lemma UnreleasedOwnsSlot(st: State, s: SessionId)
    requires Structure(st) && Unreleased(st, s)
    ensures s in st.sh.sessions.Keys + Owing(st) && st.sh.sessions.Keys !! Owing(st)
  {
    if s in st.h.removedBy {
      assert Accounted(st, Unbind(s));
      WaitsForSuccessor(st, Unbind(s));
    }
  }

  /** Two overlapping creates of a device, whose sessions, if they have them, are still registered,
      can end in two sessions of the device not released, on a full server too, if and only if
      the cap is at least two. */
  lemma OverlapGivesTwoSessions(st: State, t: ThreadId, u: ThreadId)
    requires Reachable(st) && Overlap(st, t, u) && NotRemoved(st, t) && NotRemoved(st, u)
    ensures (exists st' :: Leads(st, st') && !OnePerDevice(st')) <==> st.max >= 2
  {
    if st.max >= 2 {
      LeadsSelf(st);
      var quiet := QuietenAround(st, st, t, u);
      StillBound(st, quiet, t);
      StillBound(st, quiet, u);
      var st' := RoomGivesTwoSessions(st, quiet, t, u);
    } else {
      forall st' | Leads(st, st') ensures OnePerDevice(st') {
        LeadsReachable(st, st');
        OneSlotOneSession(st');
      }
    }
  }

  lemma StillBound(start: State, st: State, t: ThreadId)
    requires From(start, st) && t in st.threads && NotRemoved(st, t)
    ensures NotReleased(st, t)
  {
    FromInvariant(start, st);
  }

  // ----- overlaps happen

  function StartUp(max: int, ttl: nat): State {
    State(max, ttl, 0, false, Shared(0, map[], EMPTY, {}), map[], History(map[], map[], [], {}, {}, false, false))
  }

  lemma StartUpReachable(max: int, ttl: nat)
    requires max > 0
    ensures Reachable(StartUp(max, ttl))
  {
    assert IsRun([StartUp(max, ttl)]);
  }

  /** A new handler passes its device check. */
  lemma SpawnChecked(st: State, t: ThreadId, d: DeviceId) returns (st': State)
    requires Reachable(st) && t !in st.threads && !HasSession(st.sh.bindings, d)
    ensures Reachable(st') && st' == Move(st, t, Load(d))
  {
    Reach(st, Spawn(t, CheckDevice(d)));
    var asked := Move(st, t, CheckDevice(d));
    Reach(asked, Go(t, Pass));
    st' := Step(asked, t, Pass);
    assert st'.threads == st.threads[t := Load(d)];
  }

  /** From every reachable state any device without an entry can come to have two creates past
      the check, so the server has no defence against the overlap. */
  lemma OverlapHappens(st: State, d: DeviceId) returns (st': State, t: ThreadId, u: ThreadId)
    requires Reachable(st) && !HasSession(st.sh.bindings, d)
    ensures Reachable(st') && Overlap(st', t, u) && st'.threads[t].device == d
    ensures NotRemoved(st', t) && NotRemoved(st', u) && st'.max == st.max
  {
    t := Below(st.threads.Keys);
    st' := SpawnChecked(st, t, d);
    u := Below(st'.threads.Keys);
    st' := SpawnChecked(st', u, d);
  }
}

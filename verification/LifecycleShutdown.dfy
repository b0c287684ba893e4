/** How the lifecycle can come to an end: the reaper and Close can always empty the registry, and
    the shutdown cannot deadlock. */
module LifecycleShutdown {
  import opened Bindings
  import opened Teardown
  import opened Registry
  import opened Lifecycle
  import opened LifecycleInvariant
  import opened LifecycleTheorems
  import opened LifecycleReach

  /** A Close call that has stopped the reaper waits for it, or has emptied the registry. */
  ghost predicate ClosePending(st: State) {
    st.stopping && !st.h.drained ==> exists t :: t in st.threads && st.threads[t].AwaitReaper?
  }

  lemma StepClosePending(st: State, t: ThreadId, c: Choice)
    requires ClosePending(st) && CanGo(st, t, c)
    ensures ClosePending(Step(st, t, c))
  {
    var st' := Step(st, t, c);
    if st'.stopping && !st'.h.drained {
      if st.threads[t].CloseCall? {
        assert st'.threads[t].AwaitReaper?;
      } else {
        var u :| u in st.threads && st.threads[u].AwaitReaper?;
        assert u != t && st'.threads[u].AwaitReaper?;
      }
    }
  }

  lemma NextClosePending(st: State, st': State)
    requires ClosePending(st) && Follows(st, st')
    ensures ClosePending(st')
  {
    var a :| Enabled(st, a) && st' == Next(st, a);
    if a.Go? {
      StepClosePending(st, a.t, a.c);
    } else if st.stopping && !st.h.drained {
      var u :| u in st.threads && st.threads[u].AwaitReaper?;
      assert u in st'.threads && st'.threads[u].AwaitReaper?;
    }
  }

  lemma {:induction false} RunClosePending(run: seq<State>, n: nat)
    requires IsRun(run) && n < |run|
    ensures ClosePending(run[n])
  {
    if n > 0 {
      RunClosePending(run, n - 1);
      assert StepAt(run, n - 1);
      NextClosePending(run[n - 1], run[n]);
    }
  }

  lemma CloseAwaits(start: State, st: State) returns (t: ThreadId)
    requires From(start, st) && st.stopping && !st.h.drained
    ensures t in st.threads && st.threads[t].AwaitReaper?
  {
    LeadsReachable(start, st);
    var run :| IsRun(run) && run[|run| - 1] == st;
    RunClosePending(run, |run| - 1);
    t :| t in st.threads && st.threads[t].AwaitReaper?;
  }

  // ----- ending one thread

  /** `t` alone has moved, and is gone. */
  ghost predicate Ended(st: State, st': State, t: ThreadId) {
    SameServer(st, st') && st'.threads == st.threads[t := Finished]
  }

  lemma IdleReaperEnds(start: State, st: State, t: ThreadId) returns (st': State)
    requires From(start, st) && st.stopping && t in st.threads && st.threads[t].ReaperIdle?
    ensures From(start, st') && Ended(st, st', t)
  {
    st' := GoOn(start, st, t, Fail);
  }

  lemma TearingReaperEnds(start: State, st: State, t: ThreadId) returns (st': State)
    requires From(start, st) && st.stopping && t in st.threads && st.threads[t].Tearing? && st.threads[t].reaper
    ensures From(start, st') && Ended(st, st', t)
  {
    var torn := FinishThread(start, st, t);
    var idle := GoOn(start, torn, t, Fail);
    st' := IdleReaperEnds(start, idle, t);
  }

  /** A stopped reaper comes to its end. */
  lemma ReaperEnds(start: State, st: State, t: ThreadId) returns (st': State)
    requires From(start, st) && st.stopping && t in st.threads && IsReaper(st.threads[t])
    ensures From(start, st') && Ended(st, st', t)
  {
    if st.threads[t].ReaperLock? {
      var order := Enumeration(Expired(st.sh.sessions, st.threads[t].at));
      var taken := GoOn(start, st, t, Walk(order));
      st' := TearingReaperEnds(start, taken, t);
    } else if st.threads[t].Tearing? {
      st' := TearingReaperEnds(start, st, t);
    } else {
      st' := IdleReaperEnds(start, st, t);
    }
  }

  /** Everybody else stands still. */
  lemma {:induction false} ReapersEnd(start: State, st: State, ts: set<ThreadId>) returns (st': State)
    requires From(start, st) && st.stopping
    requires forall t :: t in ts <==> t in st.threads && IsReaper(st.threads[t])
    ensures From(start, st') && SameServer(st, st') && st'.threads.Keys == st.threads.Keys
    ensures forall t <- st.threads :: st'.threads[t] == if IsReaper(st.threads[t]) then Finished else st.threads[t]
    decreases |ts|
  {
    if ts == {} {
      st' := st;
    } else {
      var t :| t in ts;
      var fewer := ReaperEnds(start, st, t);
      st' := ReapersEnd(start, fewer, ts - {t});
    }
  }

  /** Apart from `t`, which is gone, and what Close does, nothing differs. */
  ghost predicate Closed(st: State, st': State, t: ThreadId) {
    && st'.max == st.max && st'.now == st.now && st'.stopping == st.stopping && st'.h.creator == st.h.creator
    && st'.threads == st.threads[t := Finished] && st'.h.drained && st'.sh.sessions == map[]
  }

  /** Close takes what is registered and finishes. */
  lemma CloseEnds(start: State, st: State, t: ThreadId) returns (st': State)
    requires From(start, st) && t in st.threads && st.threads[t].AwaitReaper?
    requires forall r <- st.threads :: !IsReaper(st.threads[r])
    ensures From(start, st') && Closed(st, st', t)
  {
    var order := Enumeration(st.sh.sessions.Keys);
    var taken := GoOn(start, st, t, Walk(order));
    assert taken.sh.sessions == map[];
    var torn := FinishThread(start, taken, t);
    st' := GoOn(start, torn, t, Fail);
  }

  // ----- emptying the registry

  lemma {:induction false} AllExpired(sessions: Sessions) returns (later: nat)
    ensures forall s <- sessions :: sessions[s] < later
  {
    if sessions == map[] {
      later := 0;
    } else {
      var s :| s in sessions;
      var rest := AllExpired(sessions - {s});
      later := if sessions[s] < rest then rest else sessions[s] + 1;
      assert forall r <- sessions :: r == s || r in sessions - {s};
    }
  }

  /** The threads of `keep` stand still, all others are at rest. */
  ghost predicate Aside(st: State, st': State, keep: set<ThreadId>) {
    && st'.max == st.max && st'.h.creator == st.h.creator
    && (forall t <- keep :: t in st.threads && t in st'.threads && st'.threads[t] == st.threads[t])
    && (forall t <- st'.threads | t !in keep :: Resting(st'.threads[t]))
  }

  /** Creates that wait while the others are at rest. */
  ghost predicate Kept(st: State, keep: set<ThreadId>) {
    && (forall t <- keep :: t in st.threads && Creating(st.threads[t]))
    && (forall t <- st.threads | t !in keep :: Resting(st.threads[t]))
  }

  /** A reaper waits for its next tick: the one that is there, or the one that starts. */
  lemma ReaperWaits(start: State, st: State, keep: set<ThreadId>) returns (st': State, r: ThreadId)
    requires From(start, st) && Kept(st, keep) && !st.stopping
    ensures From(start, st') && Aside(st, st', keep) && !st'.stopping
    ensures r in st'.threads && r !in keep && st'.threads[r].ReaperIdle?
  {
    if r' :| r' in st.threads && IsReaper(st.threads[r']) {
      r := r';
      st' := st;
      if st'.threads[r].ReaperLock? {
        var order := Enumeration(Expired(st'.sh.sessions, st'.threads[r].at));
        st' := GoOn(start, st', r, Walk(order));
        st' := FinishThread(start, st', r);
      }
      if st'.threads[r].Tearing? {
        st' := GoOn(start, st', r, Fail);
      }
    } else {
      r := Below(st.threads.Keys);
      st' := SpawnOn(start, st, r, ReaperIdle);
    }
  }

  /** The reaper is about to take all sessions, once they have expired. */
  lemma ReaperWakes(start: State, st: State, r: ThreadId) returns (st': State)
    requires From(start, st) && r in st.threads && st.threads[r].ReaperIdle?
    ensures From(start, st') && r in st'.threads && st'.threads[r].ReaperLock?
    ensures st' == Move(st, r, ReaperLock(st'.threads[r].at)).(now := st'.now)
    ensures forall s <- st.sh.sessions :: st.sh.sessions[s] < st'.threads[r].at
  {
    var later := AllExpired(st.sh.sessions);
    var due := if st.now < later then later - st.now else 0;
    LeadsOn(start, st, Elapse(due));
    st' := GoOn(start, ElapseStep(st, due), r, Pass);
  }

  lemma ReaperTakes(start: State, st: State, keep: set<ThreadId>, r: ThreadId) returns (st': State)
    requires From(start, st) && Kept(st, keep) && r !in keep && r in st.threads && st.threads[r].ReaperIdle?
    ensures From(start, st') && Aside(st, st', keep) && st'.sh.sessions == map[]
  {
    var woken := ReaperWakes(start, st, r);
    var order := Enumeration(Expired(woken.sh.sessions, woken.threads[r].at));
    var taken := GoOn(start, woken, r, Walk(order));
    assert Expired(woken.sh.sessions, woken.threads[r].at) == st.sh.sessions.Keys;
    assert taken.sh.sessions == map[];
    st' := FinishThread(start, taken, r);
  }

  /** A Close call waits for the reaper: one that is there, or a new one. */
  lemma CloseWaits(start: State, st: State, keep: set<ThreadId>) returns (st': State, t: ThreadId)
    requires From(start, st) && Kept(st, keep) && st.stopping
    ensures From(start, st') && Aside(st, st', keep) && st'.stopping
    ensures t in st'.threads && t !in keep && st'.threads[t].AwaitReaper?
  {
    if t' :| t' in st.threads && st.threads[t'].AwaitReaper? {
      t := t';
      st' := st;
    } else {
      t := Below(st.threads.Keys);
      st' := SpawnOn(start, st, t, CloseCall);
      st' := GoOn(start, st', t, Pass);
    }
  }

  /** Every reaper comes to its end, around the waiting creates and Close calls. */
  lemma ReapersGone(start: State, st: State) returns (st': State)
    requires From(start, st) && st.stopping
    ensures From(start, st') && SameServer(st, st') && st'.threads.Keys == st.threads.Keys
    ensures forall t <- st.threads :: st'.threads[t] == if IsReaper(st.threads[t]) then Finished else st.threads[t]
    ensures forall t <- st'.threads :: !IsReaper(st'.threads[t])
  {
    st' := ReapersEnd(start, st, set r | r in st.threads && IsReaper(st.threads[r]));
  }

  lemma AsideOnceClosed(st: State, still: State, st': State, keep: set<ThreadId>, t: ThreadId)
    requires Kept(st, keep) && t !in keep && SameServer(st, still) && still.threads.Keys == st.threads.Keys
    requires forall r <- st.threads :: still.threads[r] == st.threads[r] || still.threads[r] == Finished
    requires forall r <- keep :: still.threads[r] == st.threads[r]
    requires Closed(still, st', t)
    ensures Aside(st, st', keep)
  {
  }

  lemma CloseTakes(start: State, st: State, keep: set<ThreadId>, t: ThreadId) returns (st': State)
    requires From(start, st) && Kept(st, keep) && st.stopping
    requires t !in keep && t in st.threads && st.threads[t].AwaitReaper?
    ensures From(start, st') && Aside(st, st', keep) && st'.sh.sessions == map[]
  {
    var still := ReapersGone(start, st);
    st' := CloseEnds(start, still, t);
    AsideOnceClosed(st, still, st', keep, t);
  }

  /** While some creates wait, the registry can always be emptied by those who need no session's
      id: the reaper, in time, or Close in a server that is stopping. */
  lemma EmptyRegistry(start: State, st: State, keep: set<ThreadId>) returns (st': State)
    requires From(start, st) && Kept(st, keep)
    ensures From(start, st') && Aside(st, st', keep) && st'.sh.sessions == map[]
  {
    if st.stopping {
      var waits, t := CloseWaits(start, st, keep);
      st' := CloseTakes(start, waits, keep, t);
    } else {
      var waits, r := ReaperWaits(start, st, keep);
      st' := ReaperTakes(start, waits, keep, r);
    }
  }

  /** Everybody but some creates comes to rest, and no session is left. */
  lemma EmptyAround(start: State, st: State, keep: set<ThreadId>) returns (st': State)
    requires From(start, st) && forall t <- keep :: t in st.threads && Creating(st.threads[t])
    ensures From(start, st') && Aside(st, st', keep) && st'.sh.sessions == map[]
  {
    var calm := FinishAll(start, st, st.threads.Keys - keep);
    st' := EmptyRegistry(start, calm, keep);
  }

  /** Once no teardown is under way, every removed session has been released. */
  lemma NoneUnderWay(start: State, st: State)
    requires From(start, st) && forall t <- st.threads :: Program(st.threads[t]) == []
    ensures forall s <- st.h.removedBy :: Unbind(s) in st.h.log
  {
    FromInvariant(start, st);
    forall s | s in st.h.removedBy ensures Unbind(s) in st.h.log {
      RemovedSession(st, s);
    }
  }

  // ----- the shutdown cannot deadlock

  /** Not begun, or done. */
  predicate AtEnd(pc: Pc) {
    pc.CheckDevice? || pc.Answered? || pc.Finished?
  }

  predicate Closing(pc: Pc) {
    pc.CloseCall? || pc.AwaitReaper?
  }

  /** `t` alone has moved, to its end. */
  ghost predicate CameToEnd(st: State, st': State, t: ThreadId) {
    && SameServer(st, st') && t in st'.threads && AtEnd(st'.threads[t])
    && st'.threads == st.threads[t := st'.threads[t]]
  }

  lemma DestroyEnds(start: State, st: State, t: ThreadId) returns (st': State)
    requires From(start, st) && t in st.threads && st.threads[t].DestroyCall?
    ensures From(start, st') && CameToEnd(st, st', t)
  {
    st' := GoOn(start, st, t, Pass);
    if st'.threads[t].Tearing? {
      st' := FinishThread(start, st', t);
      st' := GoOn(start, st', t, Pass);
    }
  }

  lemma AttachEnds(start: State, st: State, t: ThreadId) returns (st': State)
    requires From(start, st) && t in st.threads && (st.threads[t].AttachLookup? || st.threads[t].AttachCheck?)
    ensures From(start, st') && CameToEnd(st, st', t)
  {
    st' := GoOn(start, st, t, Pass);
    if st'.threads[t].AttachCheck? {
      st' := GoOn(start, st', t, Pass);
    }
    if st'.threads[t].DestroyCall? {
      st' := DestroyEnds(start, st', t);
    }
  }

  lemma NeverClamps(start: State, st: State, t: ThreadId)
    requires From(start, st) && t in st.threads
    ensures !st.threads[t].GiveBackClamp?
  {
    FromInvariant(start, st);
    assert PcOk(st, t, st.threads[t]);
  }

  lemma RestingEnds(start: State, st: State, t: ThreadId) returns (st': State)
    requires From(start, st) && st.stopping && t in st.threads && Resting(st.threads[t]) && !Closing(st.threads[t])
    ensures From(start, st') && CameToEnd(st, st', t)
  {
    NeverClamps(start, st, t);
    if AtEnd(st.threads[t]) {
      st' := st;
    } else if IsReaper(st.threads[t]) {
      st' := ReaperEnds(start, st, t);
    } else if st.threads[t].DestroyCall? {
      st' := DestroyEnds(start, st, t);
    } else if st.threads[t].Tearing? {
      st' := GoOn(start, st, t, Pass);
    } else {
      st' := AttachEnds(start, st, t);
    }
  }

  lemma {:induction false} AllEnd(start: State, st: State, ts: set<ThreadId>) returns (st': State)
    requires From(start, st) && st.stopping
    requires forall t <- ts :: t in st.threads && Resting(st.threads[t]) && !Closing(st.threads[t])
    ensures From(start, st') && SameServer(st, st') && st'.threads.Keys == st.threads.Keys
    ensures forall t <- st.threads :: if t in ts then AtEnd(st'.threads[t]) else st'.threads[t] == st.threads[t]
    decreases |ts|
  {
    if ts == {} {
      st' := st;
    } else {
      var t :| t in ts;
      var fewer := RestingEnds(start, st, t);
      st' := AllEnd(start, fewer, ts - {t});
    }
  }

  lemma ClosingEnds(start: State, st: State, t: ThreadId) returns (st': State)
    requires From(start, st) && st.stopping && t in st.threads && Closing(st.threads[t])
    requires forall r <- st.threads :: !IsReaper(st.threads[r])
    ensures From(start, st') && Closed(st, st', t)
  {
    st' := st;
    if st'.threads[t].CloseCall? {
      st' := GoOn(start, st', t, Pass);
    }
    st' := CloseEnds(start, st', t);
  }

  lemma {:induction false} AllClose(start: State, st: State, ts: set<ThreadId>) returns (st': State)
    requires From(start, st) && st.stopping
    requires forall t <- ts :: t in st.threads && Closing(st.threads[t])
    requires forall t <- st.threads | t !in ts :: AtEnd(st.threads[t])
    ensures From(start, st') && st'.now == st.now && st'.threads.Keys == st.threads.Keys
    ensures forall t <- st'.threads :: AtEnd(st'.threads[t])
    ensures if ts == {} then st' == st else st'.h.drained && st'.sh.sessions == map[]
    decreases |ts|
  {
    if ts == {} {
      st' := st;
    } else {
      var t :| t in ts;
      st' := ClosingEnds(start, st, t);
      st' := AllClose(start, st', ts - {t});
    }
  }

  function ClosingThreads(threads: map<ThreadId, Pc>): set<ThreadId> {
    set t | t in threads && Closing(threads[t])
  }

  /** The Close calls are left. */
  lemma AllButClose(start: State, st: State) returns (st': State)
    requires From(start, st) && st.stopping
    ensures From(start, st') && SameServer(st, st') && st'.threads.Keys == st.threads.Keys
    ensures forall t <- st'.threads :: AtEnd(st'.threads[t]) || Closing(st'.threads[t])
  {
    var calm := FinishAll(start, st, st.threads.Keys);
    st' := AllEnd(start, calm, calm.threads.Keys - ClosingThreads(calm.threads));
  }

  /** The shutdown order cannot deadlock: from every reachable state in which Close has been called,
      the threads that are there, and no others, can all run to their end without the clock
      moving, save those that have not begun with a device check.  If Close had not emptied the
      registry yet, nothing is left. */
  lemma ShutdownCompletes(st: State) returns (st': State)
    requires Reachable(st) && st.stopping
    ensures Leads(st, st') && st'.threads.Keys == st.threads.Keys && st'.now == st.now
    ensures st'.h.drained && forall t <- st'.threads :: AtEnd(st'.threads[t])
    ensures !st.h.drained ==> st'.sh.sessions == map[] && st'.sh.active == 0 && st'.sh.running == {}
  {
    LeadsSelf(st);
    var left := AllButClose(st, st);
    if !st.h.drained {
      var t := CloseAwaits(st, left);
      assert t in ClosingThreads(left.threads);
    }
    st' := AllClose(st, left, ClosingThreads(left.threads));
    EndIsRest(st');
    RestIsEmpty(st, st');
  }

  lemma EndIsRest(st: State)
    requires forall t <- st.threads :: AtEnd(st.threads[t])
    ensures AtRest(st)
  {
  }

  lemma RestIsEmpty(start: State, st: State)
    requires From(start, st) && AtRest(st)
    ensures st.sh.active == |st.sh.sessions| && st.sh.running == st.sh.sessions.Keys
  {
    FromInvariant(start, st);
    RestOwnsNothing(st);
    assert |st.sh.sessions| == |st.sh.sessions.Keys|;
  }
}

/** Who removes sessions, told by what each thread was called for. */
module LifecycleReasons {
  import opened Bindings
  import opened Teardown
  import opened Lifecycle
  import opened LifecycleInvariant
  import opened LifecycleSafety
  import opened LifecycleTheorems
  import opened LifecycleBindings

  /** Thread `t` came to the server at step `i` with the call `pc`. */
  ghost predicate EnteredAt(run: seq<State>, i: nat, t: ThreadId, pc: Pc)
    requires i + 1 < |run|
  {
    t !in run[i].threads && t in run[i + 1].threads && run[i + 1].threads[t] == pc
  }

  /** ... at some step before state `n`. */
  ghost predicate Entered(run: seq<State>, n: nat, t: ThreadId, pc: Pc)
    requires n < |run|
  {
    exists i: nat :: i < n && EnteredAt(run, i, t, pc)
  }

  lemma EnteredStill(run: seq<State>, m: nat, n: nat, t: ThreadId, pc: Pc)
    requires m <= n < |run| && Entered(run, m, t, pc)
    ensures Entered(run, n, t, pc)
  {
    var i: nat :| i < m && EnteredAt(run, i, t, pc);
    assert i < n;
  }

  lemma ThreadsStay(st: State, st': State)
    requires Follows(st, st')
    ensures st.threads.Keys <= st'.threads.Keys
  {
    var a :| Enabled(st, a) && st' == Next(st, a);
  }

  lemma {:induction false} StillThere(run: seq<State>, m: nat, n: nat, t: ThreadId)
    requires IsRun(run) && m <= n < |run| && t in run[m].threads
    ensures t in run[n].threads
  {
    if m < n {
      StillThere(run, m, n - 1, t);
      assert StepAt(run, n - 1);
      ThreadsStay(run[n - 1], run[n]);
    }
  }

  /** A thread comes once. */
  lemma EnteredOnce(run: seq<State>, n: nat, t: ThreadId, pc: Pc, pc': Pc)
    requires IsRun(run) && n < |run| && Entered(run, n, t, pc) && Entered(run, n, t, pc')
    ensures pc == pc'
  {
    var i: nat :| i < n && EnteredAt(run, i, t, pc);
    var j: nat :| j < n && EnteredAt(run, j, t, pc');
    if i < j {
      StillThere(run, i + 1, j, t);
    } else if j < i {
      StillThere(run, j + 1, i, t);
    }
  }

  // ----- what a thread at each point was called for

  /** Registered once, and past its expiry if it still is. */
  ghost predicate Overdue(st: State, id: SessionId) {
    Known(st, id) && (id in st.sh.sessions ==> st.now > st.sh.sessions[id])
  }

  /** What an attaching thread knows of its session. */
  ghost predicate Seen(st: State, id: SessionId, expires: int) {
    Known(st, id) && (id in st.sh.sessions ==> st.sh.sessions[id] == expires)
  }

  lemma SeenStill(st: State, st': State, id: SessionId, expires: int)
    requires Grows(st, st') && RegistryOk(st') && Seen(st, id, expires)
    ensures Seen(st', id, expires)
  {
  }

  lemma OverdueStill(st: State, st': State, id: SessionId)
    requires Grows(st, st') && RegistryOk(st') && Overdue(st, id)
    ensures Overdue(st', id)
  {
  }

  ghost predicate CalledFor(run: seq<State>, n: nat, t: ThreadId)
    requires n < |run| && t in run[n].threads
  {
    match run[n].threads[t]
    case DestroyCall(id) =>
      Entered(run, n, t, DestroyCall(id)) || (Entered(run, n, t, AttachLookup(id)) && Overdue(run[n], id))
    case AttachLookup(id) => Entered(run, n, t, AttachLookup(id))
    case AttachCheck(id, expires) => Entered(run, n, t, AttachLookup(id)) && Seen(run[n], id, expires)
    case ReaperIdle => Entered(run, n, t, ReaperIdle)
    case ReaperLock(_) => Entered(run, n, t, ReaperIdle)
    case Tearing(_, true) => Entered(run, n, t, ReaperIdle)
    case CloseCall => Entered(run, n, t, CloseCall)
    case AwaitReaper => Entered(run, n, t, CloseCall)
    case _ => true
  }

  /** The thread stands still. */
  lemma StandingStill(run: seq<State>, n: nat, t: ThreadId)
    requires IsRun(run) && n + 1 < |run| && t in run[n].threads && CalledFor(run, n, t)
    requires t in run[n + 1].threads && run[n + 1].threads[t] == run[n].threads[t]
    ensures CalledFor(run, n + 1, t)
  {
    StepAtGrows(run, n);
    RunInvariant(run, n + 1);
    forall pc | Entered(run, n, t, pc) ensures Entered(run, n + 1, t, pc) {
      EnteredStill(run, n, n + 1, t, pc);
    }
    match run[n].threads[t]
    case DestroyCall(id) => if Overdue(run[n], id) { OverdueStill(run[n], run[n + 1], id); }
    case AttachCheck(id, expires) => SeenStill(run[n], run[n + 1], id, expires);
    case _ =>
  }

  /** The thread comes. */
  lemma Coming(run: seq<State>, n: nat, t: ThreadId)
    requires n + 1 < |run| && t !in run[n].threads && t in run[n + 1].threads && Entry(run[n + 1].threads[t])
    ensures CalledFor(run, n + 1, t)
  {
    assert EnteredAt(run, n, t, run[n + 1].threads[t]);
  }

  /** The thread moves. */
  lemma Moving(run: seq<State>, n: nat, t: ThreadId, c: Choice)
    requires n + 1 < |run| && CanGo(run[n], t, c) && run[n + 1] == Step(run[n], t, c) && CalledFor(run, n, t)
    ensures t in run[n + 1].threads && CalledFor(run, n + 1, t)
  {
    forall pc | Entered(run, n, t, pc) ensures Entered(run, n + 1, t, pc) {
      EnteredStill(run, n, n + 1, t, pc);
    }
    OthersStand(run[n], t, c);
    WhereTo(run[n], t, c);
    WhereReapersGo(run[n], t, c);
  }

  /** Where a step can lead, as far as it matters here. */
  lemma WhereTo(st: State, t: ThreadId, c: Choice)
    requires CanGo(st, t, c)
    ensures var pc, pc' := st.threads[t], Step(st, t, c).threads[t];
      && (pc'.DestroyCall? ==> pc.AttachCheck? && pc'.id == pc.id && st.now > pc.expires)
      && (pc'.DestroyCall? ==> Step(st, t, c) == Move(st, t, pc'))
      && (pc'.AttachCheck? ==> pc.AttachLookup? && pc'.id == pc.id && Seen(Step(st, t, c), pc'.id, pc'.expires))
      && (pc'.AwaitReaper? ==> pc.CloseCall?)
      && !pc'.AttachLookup? && !pc'.CloseCall?
  {
  }

  lemma WhereReapersGo(st: State, t: ThreadId, c: Choice)
    requires CanGo(st, t, c)
    ensures var pc, pc' := st.threads[t], Step(st, t, c).threads[t];
      && (pc'.ReaperIdle? ==> pc.ReaperIdle? || (pc.Tearing? && pc.reaper))
      && (pc'.ReaperLock? ==> pc.ReaperIdle?)
      && (pc'.Tearing? && pc'.reaper ==> pc.ReaperLock? || (pc.Tearing? && pc.reaper))
  {
  }

  lemma StepCalledFor(run: seq<State>, n: nat, t: ThreadId)
    requires IsRun(run) && n + 1 < |run| && t in run[n + 1].threads
    requires t in run[n].threads ==> CalledFor(run, n, t)
    ensures CalledFor(run, n + 1, t)
  {
    assert StepAt(run, n);
    var a :| Enabled(run[n], a) && run[n + 1] == Next(run[n], a);
    if a.Go? && a.t == t {
      Moving(run, n, t, a.c);
    } else if t !in run[n].threads {
      Coming(run, n, t);
    } else {
      if a.Go? {
        OthersStand(run[n], a.t, a.c);
      }
      StandingStill(run, n, t);
    }
  }

  lemma {:induction false} RunCalledFor(run: seq<State>, n: nat, t: ThreadId)
    requires IsRun(run) && n < |run| && t in run[n].threads
    ensures CalledFor(run, n, t)
  {
    if n > 0 {
      if t in run[n - 1].threads {
        RunCalledFor(run, n - 1, t);
      }
      StepCalledFor(run, n - 1, t);
    }
  }

  // ----- why a session leaves the registry

  /** A session leaves the registry only for a client's Destroy of it, at shutdown, or past its
      expiry. */
  lemma RemovalReason(run: seq<State>, n: nat, s: SessionId)
    requires IsRun(run) && n + 1 < |run| && s in run[n].sh.sessions && s !in run[n + 1].sh.sessions
    ensures exists t :: t in run[n].threads && Remover(run, n, t, s)
  {
    RemovalStep(run, n, s);
    var t :| t in run[n].threads && MayRemove(run[n], t, s);
    RunCalledFor(run, n, t);
    assert Remover(run, n, t, s);
  }

  ghost predicate Remover(run: seq<State>, n: nat, t: ThreadId, s: SessionId)
    requires n < |run| && t in run[n].threads && s in run[n].sh.sessions
  {
    || Entered(run, n, t, DestroyCall(s))
    || Entered(run, n, t, CloseCall)
    || run[n].now > run[n].sh.sessions[s]
  }

  /** An attaching thread removes nothing but its own session, and that only past its expiry. */
  lemma AttachRemovesExpired(run: seq<State>, n: nat, t: ThreadId, id: SessionId, s: SessionId)
    requires IsRun(run) && n + 1 < |run| && Entered(run, n, t, AttachLookup(id))
    requires s in run[n].sh.sessions && s in run[n + 1].h.removedBy && run[n + 1].h.removedBy[s] == t
    ensures s == id && run[n].now > run[n].sh.sessions[s]
  {
    RunInvariant(run, n);
    assert StepAt(run, n);
    RemovedNow(run[n], run[n + 1], t, s);
    RunCalledFor(run, n, t);
    forall pc | Entered(run, n, t, pc) ensures pc == AttachLookup(id) {
      EnteredOnce(run, n, t, pc, AttachLookup(id));
    }
  }

  lemma RemovedNow(st: State, st': State, t: ThreadId, s: SessionId)
    requires RegistryOk(st) && Follows(st, st') && s in st.sh.sessions
    requires s in st'.h.removedBy && st'.h.removedBy[s] == t
    ensures t in st.threads
    ensures st.threads[t] == DestroyCall(s) || st.threads[t].AwaitReaper? || st.threads[t].ReaperLock?
  {
    assert s !in st.h.removedBy;
    var a :| Enabled(st, a) && st' == Next(st, a);
    if a.Go? {
      StepRemovals(st, a.t, a.c, s);
    }
  }

  predicate Takes(pc: Pc) {
    pc.DestroyCall? || pc.AwaitReaper? || pc.ReaperLock?
  }

  lemma OnlyTakersRemove(st: State, t: ThreadId, c: Choice)
    requires CanGo(st, t, c) && !Takes(st.threads[t])
    ensures Step(st, t, c).h.removedBy == st.h.removedBy
  {
  }

  lemma TakerRemoves(st: State, t: ThreadId, c: Choice, s: SessionId)
    requires CanGo(st, t, c) && Takes(st.threads[t]) && s !in st.h.removedBy && s in Step(st, t, c).h.removedBy
    ensures Step(st, t, c).h.removedBy[s] == t && (st.threads[t].DestroyCall? ==> st.threads[t].id == s)
  {
  }

  lemma StepRemovals(st: State, t: ThreadId, c: Choice, s: SessionId)
    requires CanGo(st, t, c) && s !in st.h.removedBy && s in Step(st, t, c).h.removedBy
    ensures Step(st, t, c).h.removedBy[s] == t
    ensures st.threads[t] == DestroyCall(s) || st.threads[t].AwaitReaper? || st.threads[t].ReaperLock?
  {
    if Takes(st.threads[t]) {
      TakerRemoves(st, t, c, s);
    } else {
      OnlyTakersRemove(st, t, c);
    }
  }

  // ----- how long a session lives

  /** At step `i` the sandbox of session `id` came up, which will expire at `expires`. */
  ghost predicate IssuedAt(run: seq<State>, i: nat, id: SessionId, expires: int)
    requires i + 1 < |run|
  {
    id !in run[i].h.creator && id in run[i + 1].h.creator && expires == run[i].now + run[i].ttl
  }

  ghost predicate Issued(run: seq<State>, n: nat, id: SessionId, expires: int)
    requires n < |run|
  {
    exists i: nat :: i < n && IssuedAt(run, i, id, expires)
  }

  /** Every session about to be inserted or in the registry carries the expiry it was issued with. */
  ghost predicate ExpiriesIssued(run: seq<State>, n: nat)
    requires n < |run|
  {
    && (forall t <- run[n].threads | run[n].threads[t].Insert? ::
          Issued(run, n, run[n].threads[t].id, run[n].threads[t].expires))
    && (forall id <- run[n].sh.sessions :: Issued(run, n, id, run[n].sh.sessions[id]))
  }

  lemma IssuedStill(run: seq<State>, n: nat, id: SessionId, expires: int)
    requires n + 1 < |run| && Issued(run, n, id, expires)
    ensures Issued(run, n + 1, id, expires)
  {
    var i: nat :| i < n && IssuedAt(run, i, id, expires);
    assert i < n + 1;
  }

  /** Where expiries come from in one step. */
  lemma ExpirySources(st: State, t: ThreadId, c: Choice)
    requires CanGo(st, t, c)
    ensures var st' := Step(st, t, c);
      && (st'.threads[t].Insert? ==> st'.threads[t].id !in st.h.creator && st'.threads[t].id in st'.h.creator)
      && (st'.threads[t].Insert? ==> st'.threads[t].expires == st.now + st.ttl)
      && (forall id <- st'.sh.sessions ::
            (id in st.sh.sessions && st'.sh.sessions[id] == st.sh.sessions[id])
            || (st.threads[t].Insert? && st.threads[t].id == id && st'.sh.sessions[id] == st.threads[t].expires))
  {
  }

  lemma StepExpiries(run: seq<State>, n: nat, t: ThreadId, c: Choice)
    requires n + 1 < |run| && CanGo(run[n], t, c) && run[n + 1] == Step(run[n], t, c) && ExpiriesIssued(run, n)
    ensures ExpiriesIssued(run, n + 1)
  {
    OthersStand(run[n], t, c);
    ExpirySources(run[n], t, c);
    forall id, e | Issued(run, n, id, e) ensures Issued(run, n + 1, id, e) {
      IssuedStill(run, n, id, e);
    }
    var pc := run[n + 1].threads[t];
    if pc.Insert? {
      assert IssuedAt(run, n, pc.id, pc.expires);
    }
  }

  lemma AtExpiries(run: seq<State>, n: nat)
    requires IsRun(run) && n + 1 < |run| && ExpiriesIssued(run, n)
    ensures ExpiriesIssued(run, n + 1)
  {
    assert StepAt(run, n);
    var a :| Enabled(run[n], a) && run[n + 1] == Next(run[n], a);
    if a.Go? {
      StepExpiries(run, n, a.t, a.c);
    } else {
      forall id, e | Issued(run, n, id, e) ensures Issued(run, n + 1, id, e) {
        IssuedStill(run, n, id, e);
      }
    }
  }

  /** In every run the expiry of a registered session is its lifetime after its sandbox came up,
      however long its handler took to insert it. */
  lemma {:induction false} ExpiryFromIssue(run: seq<State>, n: nat)
    requires IsRun(run) && n < |run|
    ensures ExpiriesIssued(run, n)
  {
    if n > 0 {
      ExpiryFromIssue(run, n - 1);
      AtExpiries(run, n - 1);
    }
  }

  // ----- the reaper and Close

  /** Close has waited for the reaper: once it has emptied the registry there is none. */
  ghost predicate ReaperGone(st: State) {
    st.h.drained ==> st.stopping && forall t <- st.threads :: !IsReaper(st.threads[t])
  }

  ghost predicate AwaitStops(st: State) {
    forall t <- st.threads :: st.threads[t].AwaitReaper? ==> st.stopping
  }

  lemma StepReaperGone(st: State, t: ThreadId, c: Choice)
    requires ReaperGone(st) && AwaitStops(st) && CanGo(st, t, c)
    ensures ReaperGone(Step(st, t, c)) && AwaitStops(Step(st, t, c))
  {
    OthersStand(st, t, c);
    WhereTo(st, t, c);
    WhereReapersGo(st, t, c);
    Flags(st, t, c);
    var st' := Step(st, t, c);
    forall u | u in st'.threads
      ensures st'.threads[u].AwaitReaper? ==> st'.stopping
      ensures st'.h.drained ==> !IsReaper(st'.threads[u])
    {
      assert u != t ==> u in st.threads && st'.threads[u] == st.threads[u];
    }
  }

  lemma Flags(st: State, t: ThreadId, c: Choice)
    requires CanGo(st, t, c)
    ensures Step(st, t, c).stopping == (st.stopping || st.threads[t].CloseCall?)
    ensures Step(st, t, c).h.drained == (st.h.drained || st.threads[t].AwaitReaper?)
    ensures st.threads[t].AwaitReaper? ==> !IsReaper(Step(st, t, c).threads[t])
  {
  }

  lemma NextReaperGone(st: State, st': State)
    requires ReaperGone(st) && AwaitStops(st) && Follows(st, st')
    ensures ReaperGone(st') && AwaitStops(st')
  {
    var a :| Enabled(st, a) && st' == Next(st, a);
    if a.Go? {
      StepReaperGone(st, a.t, a.c);
    }
  }

  /** Close has waited for the reaper: once it has emptied the registry there is none, in every
      later state of every run. */
  lemma NoReaperAfterClose(run: seq<State>, n: nat)
    requires IsRun(run) && n < |run| && run[n].h.drained
    ensures forall t <- run[n].threads :: !IsReaper(run[n].threads[t])
  {
    forall st, st' | ReaperGone(st) && AwaitStops(st) && Follows(st, st') ensures ReaperGone(st') && AwaitStops(st') {
      NextReaperGone(st, st');
    }
    RunInduction(run, n, st => ReaperGone(st) && AwaitStops(st));
  }
}

/** The invariant of the lifecycle: who owns each slot, each sandbox and each teardown step. */
module LifecycleInvariant {
  import opened Bindings
  import opened Teardown
  import opened Lifecycle

  // ----- ownership, read off the program counters

  /** The request itself owns a slot, which its `release` closure would give back. */
  predicate Holds(pc: Pc) {
    pc.Challenge? || pc.Throttle? || pc.Provision? || pc.Insert? || pc.GiveBack?
  }

  function Program(pc: Pc): seq<Instr> {
    if pc.Tearing? then pc.prog else []
  }

  function Holders(threads: map<ThreadId, Pc>): set<ThreadId> {
    set t | t in threads && Holds(threads[t])
  }

  function Booting(threads: map<ThreadId, Pc>): set<ThreadId> {
    set t | t in threads && threads[t].Insert?
  }

  function BootId(pc: Pc): SessionId {
    if pc.Insert? then pc.id else ""
  }

  function BootIds(threads: map<ThreadId, Pc>): set<SessionId> {
    set t | t in Booting(threads) :: BootId(threads[t])
  }

  /** The thread that removed the session still has this teardown step ahead. */
  predicate Waiting(st: State, i: Instr) {
    i.id in st.h.removedBy && st.h.removedBy[i.id] in st.threads
    && i in Program(st.threads[st.h.removedBy[i.id]])
  }

  /** Removed sessions whose callback has not yet returned the slot. */
  function Owing(st: State): set<SessionId> {
    set s | s in st.h.removedBy && Waiting(st, ReturnSlot(s))
  }

  /** Removed sessions whose sandbox is not yet destroyed. */
  function Dying(st: State): set<SessionId> {
    set s | s in st.h.removedBy && Waiting(st, Kill(s))
  }

  // ----- the invariant

  ghost predicate ProgramOk(st: State, t: ThreadId, prog: seq<Instr>) {
    WellFormed(prog) && forall i <- prog ::
      i.id in st.h.removedBy && st.h.removedBy[i.id] == t && i !in st.h.log
  }

  ghost predicate PcOk(st: State, t: ThreadId, pc: Pc) {
    match pc
    case Cas(_, seen) => seen < st.max
    case Insert(d, id, _) =>
      && id in st.h.creator && st.h.creator[id] == Origin(t, d)
      && id !in st.sh.sessions && id !in st.h.removedBy && id !in st.h.bound
    case Register(d, id) =>
      && id in st.h.creator && st.h.creator[id] == Origin(t, d)
      && (id in st.sh.sessions || id in st.h.removedBy) && id !in st.h.bound
    case GiveBackClamp => false
    case Tearing(prog, _) => ProgramOk(st, t, prog)
    case _ => true
  }

  ghost predicate ThreadsOk(st: State) {
    forall t <- st.threads :: PcOk(st, t, st.threads[t])
  }

  ghost predicate RegistryOk(st: State) {
    && st.sh.sessions.Keys !! st.h.removedBy.Keys
    && st.sh.sessions.Keys <= st.h.creator.Keys
    && st.h.removedBy.Keys <= st.h.creator.Keys
    && st.h.bound <= st.sh.sessions.Keys + st.h.removedBy.Keys
    && forall s <- st.h.removedBy :: st.h.removedBy[s] in st.threads
  }

  ghost predicate LogOk(st: State) {
    Distinct(st.h.log) && forall i <- st.h.log :: i.id in st.h.removedBy && !i.Clamp?
  }

  ghost predicate Accounted(st: State, i: Instr) {
    i in st.h.log || Waiting(st, i)
  }

  /** No teardown step of a removed session is ever lost. */
  ghost predicate NoneLost(st: State) {
    forall s <- st.h.removedBy ::
      Accounted(st, Unbind(s)) && Accounted(st, ReturnSlot(s)) && Accounted(st, Kill(s))
  }

  /** The conservation law of slots. */
  ghost predicate SlotsConserved(st: State) {
    && st.sh.active == |Holders(st.threads)| + |st.sh.sessions.Keys| + |Owing(st)|
    && st.sh.active <= st.max
  }

  ghost predicate SandboxesOwned(st: State) {
    st.sh.running == BootIds(st.threads) + st.sh.sessions.Keys + Dying(st)
  }

  ghost predicate Structure(st: State) {
    ThreadsOk(st) && RegistryOk(st) && LogOk(st) && NoneLost(st)
  }

  ghost predicate Ownership(st: State) {
    SlotsConserved(st) && SandboxesOwned(st)
  }

  ghost predicate Invariant(st: State) {
    Structure(st) && Ownership(st)
  }

  // ----- moving one thread

  lemma HoldersAfter(threads: map<ThreadId, Pc>, t: ThreadId, pc: Pc)
    ensures |Holders(threads[t := pc])| == |Holders(threads)|
      + (if Holds(pc) then 1 else 0) - (if t in threads && Holds(threads[t]) then 1 else 0)
  {
    var others := Holders(threads) - {t};
    assert Holders(threads) == if t in threads && Holds(threads[t]) then others + {t} else others;
    assert Holders(threads[t := pc]) == if Holds(pc) then others + {t} else others;
  }

  lemma BootIdsAfter(threads: map<ThreadId, Pc>, t: ThreadId, pc: Pc)
    requires t in threads ==> !threads[t].Insert?
    ensures BootIds(threads[t := pc]) == BootIds(threads) + (if pc.Insert? then {pc.id} else {})
  {
    var after := threads[t := pc];
    assert Booting(after) == Booting(threads) + if pc.Insert? then {t} else {};
    forall x | x in BootIds(threads) ensures x in BootIds(after) {
      var u :| u in Booting(threads) && BootId(threads[u]) == x;
      assert BootId(after[u]) == x;
    }
    if pc.Insert? {
      assert t in Booting(after) && BootId(after[t]) == pc.id;
    }
  }

  /** Threads without a program neither add nor lose teardown steps. */
  lemma SameWaiting(st: State, st': State, t: ThreadId)
    requires st'.h.removedBy == st.h.removedBy && t in st'.threads && st'.threads == st.threads[t := st'.threads[t]]
    requires RegistryOk(st)
    requires Program(st'.threads[t]) == [] && (t in st.threads ==> Program(st.threads[t]) == [])
    ensures Owing(st') == Owing(st) && Dying(st') == Dying(st)
    ensures forall i :: Waiting(st', i) <==> Waiting(st, i)
  {
  }

  lemma SameSets(st: State, st': State, t: ThreadId)
    requires st'.h.removedBy == st.h.removedBy && t in st'.threads && st'.threads == st.threads[t := st'.threads[t]]
    requires RegistryOk(st)
    requires Program(st'.threads[t]) == [] && (t in st.threads ==> Program(st.threads[t]) == [])
    ensures Owing(st') == Owing(st) && Dying(st') == Dying(st)
  {
    SameWaiting(st, st', t);
  }

  /** One thread moved and the counter moved with what it holds. */
  lemma SlotsAfter(st: State, st': State, t: ThreadId, pc: Pc)
    requires SlotsConserved(st) && Owing(st') == Owing(st) && st'.sh.sessions == st.sh.sessions
    requires st'.threads == st.threads[t := pc] && st'.max == st.max && st'.sh.active <= st.max
    requires st'.sh.active - st.sh.active
          == (if Holds(pc) then 1 else 0) - (if t in st.threads && Holds(st.threads[t]) then 1 else 0)
    ensures SlotsConserved(st')
  {
    HoldersAfter(st.threads, t, pc);
  }

  /** One thread moved, and at most its own new sandbox was added. */
  lemma SandboxesAfter(st: State, st': State, t: ThreadId, pc: Pc)
    requires SandboxesOwned(st) && Dying(st') == Dying(st) && st'.sh.sessions == st.sh.sessions
    requires st'.threads == st.threads[t := pc] && (t in st.threads ==> !st.threads[t].Insert?)
    requires st'.sh.running == st.sh.running + (if pc.Insert? then {pc.id} else {})
    ensures SandboxesOwned(st')
  {
    BootIdsAfter(st.threads, t, pc);
  }

  /** Program counters that own no session. */
  predicate Plain(pc: Pc) {
    !pc.Insert? && !pc.Register? && !pc.GiveBackClamp? && Program(pc) == []
  }

  /** A step that moves one thread and perhaps the counter, and no session. */
  ghost predicate IsPlainStep(st: State, st': State, t: ThreadId, pc: Pc) {
    && Plain(pc) && PcOk(st, t, pc)
    && (t in st.threads ==> Plain(st.threads[t]))
    && st' == Move(st, t, pc).(sh := st.sh.(active := st'.sh.active), now := st'.now, stopping := st'.stopping)
    && st'.sh.active <= st.max
    && st'.sh.active - st.sh.active
       == (if Holds(pc) then 1 else 0) - (if t in st.threads && Holds(st.threads[t]) then 1 else 0)
  }

  lemma PlainStructure(st: State, st': State, t: ThreadId, pc: Pc)
    requires Structure(st) && IsPlainStep(st, st', t, pc)
    ensures Structure(st')
  {
    SameWaiting(st, st', t);
    forall u | u in st'.threads ensures PcOk(st', u, st'.threads[u]) {
      assert u != t ==> u in st.threads && PcOk(st, u, st.threads[u]);
    }
  }

  lemma PlainSlots(st: State, st': State, t: ThreadId, pc: Pc)
    requires RegistryOk(st) && SlotsConserved(st) && IsPlainStep(st, st', t, pc)
    ensures SlotsConserved(st')
  {
    SameSets(st, st', t);
    SlotsAfter(st, st', t, pc);
  }

  lemma PlainSandboxes(st: State, st': State, t: ThreadId, pc: Pc)
    requires RegistryOk(st) && SandboxesOwned(st) && IsPlainStep(st, st', t, pc)
    ensures SandboxesOwned(st')
  {
    SameSets(st, st', t);
    SandboxesAfter(st, st', t, pc);
  }

  lemma ProvisionStructure(st: State, t: ThreadId, d: DeviceId, c: Choice)
    requires Structure(st) && t in st.threads && st.threads[t] == Provision(d) && c.Issue? && c.newId !in st.h.creator
    ensures Structure(ProvisionStep(st, t, d, c))
  {
    var st' := ProvisionStep(st, t, d, c);
    SameWaiting(st, st', t);
    forall u | u in st'.threads ensures PcOk(st', u, st'.threads[u]) {
      assert u != t ==> u in st.threads && PcOk(st, u, st.threads[u]);
    }
  }

  lemma ProvisionSlots(st: State, t: ThreadId, d: DeviceId, c: Choice)
    requires RegistryOk(st) && SlotsConserved(st) && t in st.threads && st.threads[t] == Provision(d) && c.Issue?
    ensures SlotsConserved(ProvisionStep(st, t, d, c))
  {
    var st' := ProvisionStep(st, t, d, c);
    SameSets(st, st', t);
    SlotsAfter(st, st', t, st'.threads[t]);
  }

  lemma ProvisionSandboxes(st: State, t: ThreadId, d: DeviceId, c: Choice)
    requires RegistryOk(st) && SandboxesOwned(st) && t in st.threads && st.threads[t] == Provision(d) && c.Issue?
    ensures SandboxesOwned(ProvisionStep(st, t, d, c))
  {
    var st' := ProvisionStep(st, t, d, c);
    SameSets(st, st', t);
    SandboxesAfter(st, st', t, st'.threads[t]);
  }

  /** No two handlers boot the same sandbox. */
  lemma InsertLeavesBoot(st: State, t: ThreadId, d: DeviceId, id: SessionId, expires: int)
    requires ThreadsOk(st) && t in st.threads && st.threads[t] == Insert(d, id, expires)
    ensures BootIds(st.threads[t := Register(d, id)]) == BootIds(st.threads) - {id}
    ensures id in BootIds(st.threads)
  {
    var after := st.threads[t := Register(d, id)];
    assert Booting(after) == Booting(st.threads) - {t};
    forall x | x in BootIds(st.threads) && x != id ensures x in BootIds(after) {
      var u :| u in Booting(st.threads) && BootId(st.threads[u]) == x;
      assert u in Booting(after) && BootId(after[u]) == x;
    }
    forall u | u in Booting(after) ensures BootId(after[u]) in BootIds(st.threads) - {id} {
      assert PcOk(st, u, st.threads[u]) && PcOk(st, t, st.threads[t]);
      assert u in Booting(st.threads);
    }
    assert t in Booting(st.threads) && BootId(st.threads[t]) == id;
  }

  lemma InsertStructure(st: State, t: ThreadId, d: DeviceId, id: SessionId, expires: int)
    requires Structure(st) && t in st.threads && st.threads[t] == Insert(d, id, expires)
    ensures Structure(InsertStep(st, t, d, id, expires))
  {
    var st' := InsertStep(st, t, d, id, expires);
    assert PcOk(st, t, st.threads[t]);
    SameWaiting(st, st', t);
    forall u | u in st'.threads ensures PcOk(st', u, st'.threads[u]) {
      assert u != t ==> u in st.threads && PcOk(st, u, st.threads[u]);
    }
  }

  /** The slot changes owner: from the request to the registry. */
  lemma InsertSlots(st: State, t: ThreadId, d: DeviceId, id: SessionId, expires: int)
    requires RegistryOk(st) && SlotsConserved(st) && id !in st.sh.sessions
    requires t in st.threads && st.threads[t] == Insert(d, id, expires)
    ensures SlotsConserved(InsertStep(st, t, d, id, expires))
  {
    var st' := InsertStep(st, t, d, id, expires);
    HoldersAfter(st.threads, t, st'.threads[t]);
    SameSets(st, st', t);
    assert st'.sh.sessions.Keys == st.sh.sessions.Keys + {id};
  }

  lemma InsertSandboxes(st: State, t: ThreadId, d: DeviceId, id: SessionId, expires: int)
    requires ThreadsOk(st) && RegistryOk(st) && SandboxesOwned(st)
    requires t in st.threads && st.threads[t] == Insert(d, id, expires)
    ensures SandboxesOwned(InsertStep(st, t, d, id, expires))
  {
    var st' := InsertStep(st, t, d, id, expires);
    InsertLeavesBoot(st, t, d, id, expires);
    SameSets(st, st', t);
    assert st'.sh.sessions.Keys == st.sh.sessions.Keys + {id};
  }

  lemma RegisterStructure(st: State, t: ThreadId, d: DeviceId, id: SessionId)
    requires Structure(st) && t in st.threads && st.threads[t] == Register(d, id)
    ensures Structure(RegisterStep(st, t, d, id))
  {
    var st' := RegisterStep(st, t, d, id);
    assert PcOk(st, t, st.threads[t]);
    SameWaiting(st, st', t);
    forall u | u in st'.threads ensures PcOk(st', u, st'.threads[u]) {
      assert u != t ==> u in st.threads && PcOk(st, u, st.threads[u]);
    }
  }

  lemma RegisterSlots(st: State, t: ThreadId, d: DeviceId, id: SessionId)
    requires RegistryOk(st) && SlotsConserved(st) && t in st.threads && st.threads[t] == Register(d, id)
    ensures SlotsConserved(RegisterStep(st, t, d, id))
  {
    SameSets(st, RegisterStep(st, t, d, id), t);
    SlotsAfter(st, RegisterStep(st, t, d, id), t, Answered);
  }

  lemma RegisterSandboxes(st: State, t: ThreadId, d: DeviceId, id: SessionId)
    requires RegistryOk(st) && SandboxesOwned(st) && t in st.threads && st.threads[t] == Register(d, id)
    ensures SandboxesOwned(RegisterStep(st, t, d, id))
  {
    SameSets(st, RegisterStep(st, t, d, id), t);
    SandboxesAfter(st, RegisterStep(st, t, d, id), t, Answered);
  }

  // ----- removing sessions from the registry

  /** `t` leaves its plain program counter with the teardown of `ids`, taken under the lock. */
  ghost predicate IsTake(st: State, st': State, t: ThreadId, ids: seq<SessionId>, prog: seq<Instr>, reaper: bool) {
    && t in st.threads && Plain(st.threads[t]) && !Holds(st.threads[t])
    && Distinct(ids) && (forall s <- ids :: s in st.sh.sessions)
    && WellFormed(prog) && TearsDown(prog, ids)
    && st' == Take(st, t, ids, prog, reaper).(h := st'.h)
    && st'.h == Take(st, t, ids, prog, reaper).h.(drained := st'.h.drained)
  }

  /** The teardown steps of the taken sessions now wait, and no others changed. */
  lemma TakeWaiting(st: State, st': State, t: ThreadId, ids: seq<SessionId>, prog: seq<Instr>, reaper: bool)
    requires RegistryOk(st) && IsTake(st, st', t, ids, prog, reaper)
    ensures forall i :: Waiting(st', i) <==> Waiting(st, i) || (i.id in ids && !i.Clamp?)
  {
    var was, now := st.h.removedBy, st'.h.removedBy;
    assert Program(st'.threads[t]) == prog;
    forall i: Instr ensures Waiting(st', i) <==> Waiting(st, i) || (i.id in ids && !i.Clamp?) {
      if i.id in ids {
        assert i.id in st.sh.sessions && now[i.id] == t;
      } else if i.id in was {
        assert now[i.id] == was[i.id];
        assert was[i.id] == t ==> i !in prog && i !in Program(st.threads[t]);
      }
    }
  }

  /** The taken sessions move from the registry to the unfinished teardowns, one for one. */
  ghost predicate Moved(st: State, st': State, taken: set<SessionId>) {
    && Owing(st') == Owing(st) + taken && Owing(st) !! taken
    && Dying(st') == Dying(st) + taken
    && st.sh.sessions.Keys == st'.sh.sessions.Keys + taken && st'.sh.sessions.Keys !! taken
  }

  lemma TakeMoves(st: State, st': State, t: ThreadId, ids: seq<SessionId>, prog: seq<Instr>, reaper: bool)
    requires RegistryOk(st) && IsTake(st, st', t, ids, prog, reaper)
    ensures Moved(st, st', set s | s in ids)
  {
    TakeWaiting(st, st', t, ids, prog, reaper);
  }

  lemma TakePcs(st: State, st': State, t: ThreadId, ids: seq<SessionId>, prog: seq<Instr>, reaper: bool)
    requires Structure(st) && IsTake(st, st', t, ids, prog, reaper)
    ensures ThreadsOk(st')
  {
    assert ProgramOk(st', t, prog) by {
      forall i | i in prog ensures i !in st.h.log {
        assert i.id in ids;
      }
    }
    forall u | u in st'.threads && u != t ensures PcOk(st', u, st'.threads[u]) {
      assert u in st.threads && PcOk(st, u, st.threads[u]);
    }
  }

  lemma TakeStructure(st: State, st': State, t: ThreadId, ids: seq<SessionId>, prog: seq<Instr>, reaper: bool)
    requires Structure(st) && IsTake(st, st', t, ids, prog, reaper)
    ensures Structure(st')
  {
    TakePcs(st, st', t, ids, prog, reaper);
    TakeWaiting(st, st', t, ids, prog, reaper);
    forall s | s in st'.h.removedBy
      ensures Accounted(st', Unbind(s)) && Accounted(st', ReturnSlot(s)) && Accounted(st', Kill(s))
    {
    }
  }

  lemma TakeSlots(st: State, st': State, t: ThreadId, pc: Pc, taken: set<SessionId>)
    requires SlotsConserved(st) && Moved(st, st', taken) && !Holds(pc) && (t in st.threads ==> !Holds(st.threads[t]))
    requires st'.threads == st.threads[t := pc] && st'.max == st.max && st'.sh.active == st.sh.active
    ensures SlotsConserved(st')
  {
    HoldersAfter(st.threads, t, pc);
  }

  lemma TakeSandboxes(st: State, st': State, t: ThreadId, pc: Pc, taken: set<SessionId>)
    requires SandboxesOwned(st) && Moved(st, st', taken) && !pc.Insert? && (t in st.threads ==> !st.threads[t].Insert?)
    requires st'.threads == st.threads[t := pc] && st'.sh.running == st.sh.running
    ensures SandboxesOwned(st')
  {
    BootIdsAfter(st.threads, t, pc);
  }

  /** Apart from histories, `t` moves and the registry shrinks. */
  ghost predicate MovesThread(st: State, st': State, t: ThreadId, pc: Pc) {
    && t in st.threads && !Holds(st.threads[t]) && !st.threads[t].Insert? && !Holds(pc) && !pc.Insert?
    && st'.threads == st.threads[t := pc] && st'.max == st.max
    && st'.sh.active == st.sh.active && st'.sh.running == st.sh.running
  }

  lemma TakeMovesThread(st: State, st': State, t: ThreadId, ids: seq<SessionId>, prog: seq<Instr>, reaper: bool)
    requires IsTake(st, st', t, ids, prog, reaper)
    ensures MovesThread(st, st', t, Tearing(prog, reaper))
  {
  }

  lemma TakeOwnership(st: State, st': State, t: ThreadId, pc: Pc, taken: set<SessionId>)
    requires Ownership(st) && Moved(st, st', taken) && MovesThread(st, st', t, pc)
    ensures Ownership(st')
  {
    TakeSlots(st, st', t, pc, taken);
    TakeSandboxes(st, st', t, pc, taken);
  }

  // ----- running one step of a teardown

  ghost predicate AtTear(st: State, t: ThreadId, prog: seq<Instr>, reaper: bool) {
    t in st.threads && st.threads[t] == Tearing(prog, reaper) && prog != []
  }

  /** The clamp is dead code: a slot is returned only while one is still counted. */
  lemma NeverBelowZero(st: State, t: ThreadId, prog: seq<Instr>, reaper: bool)
    requires Invariant(st) && AtTear(st, t, prog, reaper)
    ensures prog[0].ReturnSlot? ==> prog[0].id in Owing(st) && st.sh.active >= 1
    ensures Rest(st.sh, prog) == prog[1..]
  {
    if prog[0].ReturnSlot? {
      HeadOwes(st, t, prog, reaper);
      OwingCounted(st, prog[0].id);
    }
  }

  lemma HeadOwes(st: State, t: ThreadId, prog: seq<Instr>, reaper: bool)
    requires ThreadsOk(st) && AtTear(st, t, prog, reaper) && prog[0].ReturnSlot?
    ensures prog[0].id in Owing(st)
  {
    assert PcOk(st, t, st.threads[t]);
    assert prog[0] in prog;
  }

  lemma OwingCounted(st: State, s: SessionId)
    requires SlotsConserved(st) && s in Owing(st)
    ensures st.sh.active >= 1
  {
  }

  lemma TearWaiting(st: State, t: ThreadId, prog: seq<Instr>, reaper: bool)
    requires Structure(st) && AtTear(st, t, prog, reaper) && Rest(st.sh, prog) == prog[1..]
    ensures forall i :: Waiting(TearStep(st, t, prog, reaper), i) <==> Waiting(st, i) && i != prog[0]
    ensures Waiting(st, prog[0])
  {
    assert PcOk(st, t, st.threads[t]);
    TailWellFormed(prog);
    assert prog[0] in prog;
    assert forall i :: i in prog <==> i == prog[0] || i in prog[1..];
  }

  lemma TearPcs(st: State, t: ThreadId, prog: seq<Instr>, reaper: bool)
    requires Structure(st) && AtTear(st, t, prog, reaper) && Rest(st.sh, prog) == prog[1..]
    ensures ThreadsOk(TearStep(st, t, prog, reaper))
  {
    var st' := TearStep(st, t, prog, reaper);
    assert PcOk(st, t, st.threads[t]);
    TailWellFormed(prog);
    assert prog[0] in prog;
    assert ProgramOk(st', t, prog[1..]);
    forall u | u in st'.threads && u != t ensures PcOk(st', u, st'.threads[u]) {
      assert u in st.threads && PcOk(st, u, st.threads[u]);
    }
  }

  lemma TearStructure(st: State, t: ThreadId, prog: seq<Instr>, reaper: bool)
    requires Structure(st) && AtTear(st, t, prog, reaper) && Rest(st.sh, prog) == prog[1..]
    ensures Structure(TearStep(st, t, prog, reaper))
  {
    TearPcs(st, t, prog, reaper);
    TearWaiting(st, t, prog, reaper);
    assert PcOk(st, t, st.threads[t]) && prog[0] in prog;
    TearHistory(st, TearStep(st, t, prog, reaper), prog[0]);
  }

  /** A step that has waited is now in the log; nothing else about the sessions changed. */
  lemma TearHistory(st: State, st': State, done: Instr)
    requires RegistryOk(st) && LogOk(st) && NoneLost(st)
    requires done !in st.h.log && done.id in st.h.removedBy && !done.Clamp?
    requires st'.sh.sessions == st.sh.sessions && st'.h == st.h.(log := st.h.log + [done])
    requires st'.threads.Keys == st.threads.Keys
    requires forall i :: Waiting(st', i) <==> Waiting(st, i) && i != done
    ensures RegistryOk(st') && LogOk(st') && NoneLost(st')
  {
    forall s | s in st'.h.removedBy
      ensures Accounted(st', Unbind(s)) && Accounted(st', ReturnSlot(s)) && Accounted(st', Kill(s))
    {
      assert forall i :: Accounted(st, i) ==> Accounted(st', i);
    }
  }

  /** What one teardown step takes out of the two sets of unfinished sessions. */
  lemma TearOwing(st: State, t: ThreadId, prog: seq<Instr>, reaper: bool)
    requires Structure(st) && AtTear(st, t, prog, reaper) && Rest(st.sh, prog) == prog[1..]
    ensures Owing(TearStep(st, t, prog, reaper)) == Owing(st) - (if prog[0].ReturnSlot? then {prog[0].id} else {})
    ensures prog[0].ReturnSlot? ==> prog[0].id in Owing(st)
  {
    TearWaiting(st, t, prog, reaper);
    OwingAfter(st, TearStep(st, t, prog, reaper), prog[0]);
  }

  lemma OwingAfter(st: State, st': State, done: Instr)
    requires st'.h.removedBy == st.h.removedBy && Waiting(st, done)
    requires forall i :: Waiting(st', i) <==> Waiting(st, i) && i != done
    ensures Owing(st') == Owing(st) - (if done.ReturnSlot? then {done.id} else {})
    ensures Dying(st') == Dying(st) - (if done.Kill? then {done.id} else {})
    ensures done.ReturnSlot? ==> done.id in Owing(st)
  {
    forall s ensures s in Owing(st') <==> s in Owing(st) && done != ReturnSlot(s) {
      assert Waiting(st', ReturnSlot(s)) <==> Waiting(st, ReturnSlot(s)) && ReturnSlot(s) != done;
    }
    forall s ensures s in Dying(st') <==> s in Dying(st) && done != Kill(s) {
      assert Waiting(st', Kill(s)) <==> Waiting(st, Kill(s)) && Kill(s) != done;
    }
  }

  lemma TearDying(st: State, t: ThreadId, prog: seq<Instr>, reaper: bool)
    requires Structure(st) && AtTear(st, t, prog, reaper) && Rest(st.sh, prog) == prog[1..]
    ensures Dying(TearStep(st, t, prog, reaper)) == Dying(st) - (if prog[0].Kill? then {prog[0].id} else {})
  {
    TearWaiting(st, t, prog, reaper);
    OwingAfter(st, TearStep(st, t, prog, reaper), prog[0]);
  }

  lemma TearSlots(st: State, t: ThreadId, prog: seq<Instr>, reaper: bool)
    requires Structure(st) && SlotsConserved(st) && AtTear(st, t, prog, reaper) && Rest(st.sh, prog) == prog[1..]
    ensures SlotsConserved(TearStep(st, t, prog, reaper))
  {
    TearOwing(st, t, prog, reaper);
    NoClampHead(st, t, prog, reaper);
    TearCount(st, t, prog, reaper);
    TearTotal(st, TearStep(st, t, prog, reaper), prog[0]);
  }

  lemma NoClampHead(st: State, t: ThreadId, prog: seq<Instr>, reaper: bool)
    requires ThreadsOk(st) && AtTear(st, t, prog, reaper)
    ensures !prog[0].Clamp?
  {
    assert PcOk(st, t, st.threads[t]) && prog[0] in prog;
  }

  lemma TearCount(st: State, t: ThreadId, prog: seq<Instr>, reaper: bool)
    requires AtTear(st, t, prog, reaper) && Rest(st.sh, prog) == prog[1..] && !prog[0].Clamp?
    ensures var st' := TearStep(st, t, prog, reaper);
      && |Holders(st'.threads)| == |Holders(st.threads)| && st'.sh.sessions == st.sh.sessions && st'.max == st.max
      && st'.sh.active == st.sh.active - (if prog[0].ReturnSlot? then 1 else 0)
  {
    HoldersAfter(st.threads, t, Tearing(prog[1..], reaper));
  }

  lemma TearTotal(st: State, st': State, done: Instr)
    requires SlotsConserved(st) && |Holders(st'.threads)| == |Holders(st.threads)|
    requires st'.sh.sessions == st.sh.sessions && st'.max == st.max
    requires st'.sh.active == st.sh.active - (if done.ReturnSlot? then 1 else 0)
    requires Owing(st') == Owing(st) - (if done.ReturnSlot? then {done.id} else {})
    requires done.ReturnSlot? ==> done.id in Owing(st)
    ensures SlotsConserved(st')
  {
  }

  lemma TearSandboxes(st: State, t: ThreadId, prog: seq<Instr>, reaper: bool)
    requires Structure(st) && SandboxesOwned(st) && AtTear(st, t, prog, reaper) && Rest(st.sh, prog) == prog[1..]
    ensures SandboxesOwned(TearStep(st, t, prog, reaper))
  {
    TearDying(st, t, prog, reaper);
    DyingNotElsewhere(st, t, prog, reaper);
    TearRunning(st, t, prog, reaper);
  }

  lemma TearRunning(st: State, t: ThreadId, prog: seq<Instr>, reaper: bool)
    requires SandboxesOwned(st) && AtTear(st, t, prog, reaper) && Rest(st.sh, prog) == prog[1..]
    requires prog[0].id !in BootIds(st.threads) && prog[0].id !in st.sh.sessions
    requires Dying(TearStep(st, t, prog, reaper)) == Dying(st) - (if prog[0].Kill? then {prog[0].id} else {})
    ensures SandboxesOwned(TearStep(st, t, prog, reaper))
  {
    BootIdsAfter(st.threads, t, Tearing(prog[1..], reaper));
  }

  /** A dying sandbox is not booting and not in the registry. */
  lemma DyingNotElsewhere(st: State, t: ThreadId, prog: seq<Instr>, reaper: bool)
    requires ThreadsOk(st) && RegistryOk(st) && AtTear(st, t, prog, reaper)
    ensures prog[0].id !in BootIds(st.threads) && prog[0].id !in st.sh.sessions
  {
    assert PcOk(st, t, st.threads[t]) && prog[0] in prog;
    forall u | u in Booting(st.threads) ensures BootId(st.threads[u]) != prog[0].id {
      assert PcOk(st, u, st.threads[u]);
    }
  }
}

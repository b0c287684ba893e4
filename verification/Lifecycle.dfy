/** The life of a sandbox slot and of a session, as threads that interleave freely.

    Any number of create handlers, Destroy calls, Attach calls, Close calls and reapers run at
    the granularity of the atomic and the lock-protected steps of the program.  A thread is its
    program counter; a step moves one thread.  History variables record who created and who
    removed each session and which teardown steps have run; no step reads them.
  */
module Lifecycle {
  import opened Bindings
  import opened Teardown
  import opened Registry

  type ThreadId = nat

  datatype Pc =
    // SessionHandler.Create, the guard and Manager.Create
    | CheckDevice(device: DeviceId)
    | Load(device: DeviceId)                                   // TryAcquire, before the load
    | Cas(device: DeviceId, seen: int)                         // TryAcquire, before the compare-and-swap
    | Challenge(device: DeviceId)                              // slot held, Turnstile ahead
    | Throttle(device: DeviceId)                               // slot held, rate limiter ahead
    | Provision(device: DeviceId)                              // slot held, CreateSandbox ahead
    | Insert(device: DeviceId, id: SessionId, expires: int)    // sandbox runs, not yet in the registry
    | Register(device: DeviceId, id: SessionId)                // in the registry, not yet bound
    | GiveBack                                                 // release closure, before the add
    | GiveBackClamp                                            // before its clamping store
    | Answered
    // removers
    | DestroyCall(id: SessionId)
    | AttachLookup(id: SessionId)
    | AttachCheck(id: SessionId, expires: int)
    | ReaperIdle
    | ReaperLock(at: int)
    | CloseCall
    | AwaitReaper
    | Tearing(prog: seq<Instr>, reaper: bool)
    | Finished

  /** What the environment decides: a check's outcome, a fresh id, the order of a map walk. */
  datatype Choice = Pass | Fail | Issue(newId: SessionId) | Walk(order: seq<SessionId>)

  datatype Origin = Origin(thread: ThreadId, device: DeviceId)

  datatype History = History(
    creator: map<SessionId, Origin>,      // every id ever issued
    removedBy: map<SessionId, ThreadId>,  // who took the session out of the registry
    log: seq<Instr>,                      // teardown steps that have run, in order
    bound: set<SessionId>,                // sessions that were registered with the guard
    late: set<SessionId>,                 // ... of which after their own Unbind
    drained: bool,                        // Close has emptied the registry
    insertedAfterClose: bool)

  datatype State = State(
    max: int, ttl: nat, now: int, stopping: bool,
    sh: Shared, threads: map<ThreadId, Pc>, h: History)

  datatype Action = Spawn(t: ThreadId, pc: Pc) | Elapse(dt: nat) | Go(t: ThreadId, c: Choice)

  predicate Entry(pc: Pc) {
    pc.CheckDevice? || pc.DestroyCall? || pc.AttachLookup? || pc.CloseCall? || pc.ReaperIdle?
  }

  /** Between the device check and the answer. */
  predicate Creating(pc: Pc) {
    pc.Load? || pc.Cas? || pc.Challenge? || pc.Throttle? || pc.Provision? || pc.Insert? || pc.Register?
  }

  predicate IsReaper(pc: Pc) {
    pc.ReaperIdle? || pc.ReaperLock? || (pc.Tearing? && pc.reaper)
  }

  ghost predicate CanGo(st: State, t: ThreadId, c: Choice) {
    t in st.threads &&
    match st.threads[t]
    case Provision(_) => c.Issue? ==> c.newId !in st.h.creator
    case ReaperLock(at) => c.Walk? && Enumerates(c.order, Expired(st.sh.sessions, at))
    case AwaitReaper => c.Walk? && Enumerates(c.order, st.sh.sessions.Keys)
                        && forall r <- st.threads :: !IsReaper(st.threads[r])
    case Answered => false
    case Finished => false
    case _ => true
  }

  ghost predicate Enabled(st: State, a: Action) {
    match a
    case Spawn(t, pc) => t !in st.threads && Entry(pc) && (pc.ReaperIdle? ==> !st.stopping)
    case Elapse(_) => true
    case Go(t, c) => CanGo(st, t, c)
  }

  function Move(st: State, t: ThreadId, pc: Pc): State {
    st.(threads := st.threads[t := pc])
  }

  /** Removes `ids` from the registry under the lock; `t` is left with their teardown. */
  function Take(st: State, t: ThreadId, ids: seq<SessionId>, prog: seq<Instr>, reaper: bool): State {
    st.(sh := st.sh.(sessions := st.sh.sessions - (set s | s in ids)),
        threads := st.threads[t := Tearing(prog, reaper)],
        h := st.h.(removedBy := st.h.removedBy + (map s | s in ids :: t)))
  }

  /** Close takes everything. */
  function TakeAll(st: State, t: ThreadId, order: seq<SessionId>): State {
    var taken := Take(st, t, order, CallbacksFirst(order), false);
    taken.(h := taken.h.(drained := true))
  }

  function TryAcquireStep(st: State, t: ThreadId, pc: Pc): State
    requires pc.Load? || pc.Cas?
  {
    match pc
    case Load(d) =>
      Move(st, t, if st.sh.active >= st.max then Answered else Cas(d, st.sh.active))
    case Cas(d, seen) =>
      if st.sh.active == seen then
        Move(st, t, Challenge(d)).(sh := st.sh.(active := seen + 1))
      else Move(st, t, Load(d))
  }

  function ProvisionStep(st: State, t: ThreadId, d: DeviceId, c: Choice): State {
    if c.Issue? then
      Move(st, t, Insert(d, c.newId, st.now + st.ttl)).(
        sh := st.sh.(running := st.sh.running + {c.newId}),
        h := st.h.(creator := st.h.creator[c.newId := Origin(t, d)]))
    else Move(st, t, GiveBack)
  }

  function InsertStep(st: State, t: ThreadId, d: DeviceId, id: SessionId, expires: int): State {
    Move(st, t, Register(d, id)).(
      sh := st.sh.(sessions := st.sh.sessions[id := expires]),
      h := st.h.(insertedAfterClose := st.h.insertedAfterClose || st.h.drained))
  }

  function RegisterStep(st: State, t: ThreadId, d: DeviceId, id: SessionId): State {
    Move(st, t, Answered).(
      sh := st.sh.(bindings := Bind(st.sh.bindings, d, id)),
      h := st.h.(bound := st.h.bound + {id},
                 late := if Unbind(id) in st.h.log then st.h.late + {id} else st.h.late))
  }

  function GiveBackStep(st: State, t: ThreadId): State {
    Move(st, t, if st.sh.active - 1 < 0 then GiveBackClamp else Answered).(
      sh := st.sh.(active := st.sh.active - 1))
  }

  function TearStep(st: State, t: ThreadId, prog: seq<Instr>, reaper: bool): State {
    if prog == [] then Move(st, t, if reaper then ReaperIdle else Finished)
    else
      Move(st, t, Tearing(Rest(st.sh, prog), reaper)).(
        sh := Effect(st.sh, prog[0]),
        h := st.h.(log := st.h.log + [prog[0]]))
  }

  ghost function Step(st: State, t: ThreadId, c: Choice): State
    requires CanGo(st, t, c)
  {
    var pc := st.threads[t];
    match pc
    case CheckDevice(d) => Move(st, t, if HasSession(st.sh.bindings, d) then Answered else Load(d))
    case Load(_) => TryAcquireStep(st, t, pc)
    case Cas(_, _) => TryAcquireStep(st, t, pc)
    case Challenge(d) => Move(st, t, if c.Pass? then Throttle(d) else GiveBack)
    case Throttle(d) => Move(st, t, if c.Pass? then Provision(d) else GiveBack)
    case Provision(d) => ProvisionStep(st, t, d, c)
    case Insert(d, id, expires) => InsertStep(st, t, d, id, expires)
    case Register(d, id) => RegisterStep(st, t, d, id)
    case GiveBack => GiveBackStep(st, t)
    case GiveBackClamp => Move(st, t, Answered).(sh := st.sh.(active := 0))
    case DestroyCall(id) =>
      if id in st.sh.sessions then Take(st, t, [id], Single(id), false) else Move(st, t, Finished)
    case AttachLookup(id) =>
      Move(st, t, if id in st.sh.sessions then AttachCheck(id, st.sh.sessions[id]) else Finished)
    case AttachCheck(id, expires) => Move(st, t, if st.now > expires then DestroyCall(id) else Finished)
    case ReaperIdle =>
      Move(st, t, if c.Pass? then ReaperLock(st.now) else if st.stopping then Finished else ReaperIdle)
    case ReaperLock(_) => Take(st, t, c.order, OneByOne(c.order), true)
    case CloseCall => Move(st, t, AwaitReaper).(stopping := true)
    case AwaitReaper => TakeAll(st, t, c.order)
    case Tearing(prog, reaper) => TearStep(st, t, prog, reaper)
    case _ => st
  }

  function ElapseStep(st: State, dt: nat): State {
    st.(now := st.now + dt)
  }

  ghost function Next(st: State, a: Action): State
    requires Enabled(st, a)
  {
    match a
    case Spawn(t, pc) => Move(st, t, pc)
    case Elapse(dt) => ElapseStep(st, dt)
    case Go(t, c) => Step(st, t, c)
  }

  ghost predicate Initial(st: State) {
    && st.max > 0
    && st.sh == Shared(0, map[], EMPTY, {})
    && st.threads == map[]
    && !st.stopping
    && st.h == History(map[], map[], [], {}, {}, false, false)
  }

  ghost predicate Follows(st: State, st': State) {
    exists a :: Enabled(st, a) && st' == Next(st, a)
  }

  ghost predicate StepAt(run: seq<State>, i: nat)
    requires i + 1 < |run|
  {
    Follows(run[i], run[i + 1])
  }

  /** A run of the server, from start-up, under any schedule. */
  ghost predicate IsRun(run: seq<State>) {
    && run != [] && Initial(run[0])
    && forall i: nat | i + 1 < |run| :: StepAt(run, i)
  }

  /** What holds at start-up and is kept by every step holds in every state of every run. */
  lemma {:induction false} RunInduction(run: seq<State>, n: nat, holds: State -> bool)
    requires IsRun(run) && n < |run|
    requires forall st | Initial(st) :: holds(st)
    requires forall st, st' | holds(st) && Follows(st, st') :: holds(st')
    ensures holds(run[n])
  {
    if n > 0 {
      RunInduction(run, n - 1, holds);
      assert StepAt(run, n - 1);
    }
  }
}

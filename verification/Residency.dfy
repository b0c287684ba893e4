/** How long a session can stay in the registry: the one reaper, its ticker and the clock.

    The ticker fires every interval into a channel of one slot and drops ticks that find it full.
    The reaper takes a tick as soon as it is idle, removes all expired sessions at once and then
    destroys their sandboxes one after another, each within the limit of its context.  Steps
    other than waiting and destroying take no time.
  */
module Residency {
  import opened Common
  import opened Bindings
  import opened Registry
  import Lifecycle
  import LifecycleTheorems

  const SECOND: int := 1_000_000_000
  const TICK: int := 10 * SECOND
  const LIMIT: int := 10 * SECOND

  datatype Reaper = Waiting | Destroying(left: nat, deadline: int)

  datatype State = State(
    max: int, ttl: nat, now: int,
    created: map<SessionId, int>,     // the registry: id to creation instant
    nextFire: int, ticked: bool,      // the ticker and its channel
    reaper: Reaper,
    lastReap: int, batch: nat)        // the latest reap (or start-up), and how many it removed

  datatype Action =
    | Elapse(dt: int)
    | Fire
    | Reap
    | Destroyed                       // the sandbox under destruction is gone
    | Insert(id: SessionId)
    | Remove(id: SessionId)           // any other remover

  function Expiries(st: State): Sessions {
    map s | s in st.created :: st.created[s] + st.ttl
  }

  predicate Enabled(st: State, a: Action) {
    match a
    case Elapse(dt) =>
      && dt > 0 && st.now + dt <= st.nextFire
      && !(st.reaper.Waiting? && st.ticked)
      && (st.reaper.Destroying? ==> st.now + dt <= st.reaper.deadline)
    case Fire => st.now == st.nextFire
    case Reap => st.reaper.Waiting? && st.ticked
    case Destroyed => st.reaper.Destroying?
    case Insert(id) => |st.created| < st.max && id !in st.created
    case Remove(_) => true
  }

  function Next(st: State, a: Action): State
    requires Enabled(st, a)
  {
    match a
    case Elapse(dt) => st.(now := st.now + dt)
    case Fire => st.(ticked := true, nextFire := st.nextFire + TICK)
    case Reap =>
      var expired := Expired(Expiries(st), st.now);
      st.(created := st.created - expired, ticked := false, lastReap := st.now, batch := |expired|,
          reaper := if expired == {} then Waiting else Destroying(|expired|, st.now + LIMIT))
    case Destroyed =>
      var left := st.reaper.left;
      st.(reaper := if left <= 1 then Waiting else Destroying(left - 1, st.now + LIMIT))
    case Insert(id) => st.(created := st.created[id := st.now])
    case Remove(id) => st.(created := st.created - {id})
  }

  ghost predicate Initial(st: State) {
    st.max >= 1 && st == State(st.max, st.ttl, st.now, map[], st.now + TICK, false, Waiting, st.now, 0)
  }

  ghost predicate StepAt(run: seq<State>, i: nat)
    requires i + 1 < |run|
  {
    exists a :: Enabled(run[i], a) && run[i + 1] == Next(run[i], a)
  }

  ghost predicate IsRun(run: seq<State>) {
    run != [] && Initial(run[0]) && forall i: nat | i + 1 < |run| :: StepAt(run, i)
  }

  /** The longest that the reaper can be away after a reap of `batch` sessions. */
  function Absence(batch: nat): int {
    if batch <= 1 then TICK else batch * LIMIT
  }

  ghost predicate Punctual(st: State) {
    && st.now <= st.nextFire <= st.now + TICK
    && (!st.ticked ==> st.nextFire <= st.lastReap + TICK)
    && st.lastReap <= st.now <= st.lastReap + Absence(st.batch)
    && match st.reaper
       case Waiting => true
       case Destroying(left, deadline) =>
         1 <= left <= st.batch && st.now <= deadline <= st.lastReap + (st.batch - left + 1) * LIMIT
  }

  ghost predicate Bounded(st: State) {
    && 1 <= st.max && |st.created| <= st.max && st.batch <= st.max
    && forall s <- st.created :: st.created[s] <= st.now && st.created[s] + st.ttl >= st.lastReap
  }

  lemma ReapBounded(st: State)
    requires Bounded(st) && Enabled(st, Reap)
    ensures Bounded(Next(st, Reap))
  {
    var expired := Expired(Expiries(st), st.now);
    assert expired <= st.created.Keys;
    SubsetSize(expired, st.created.Keys);
    SubsetSize((st.created - expired).Keys, st.created.Keys);
  }

  lemma StepBounded(st: State, a: Action)
    requires Bounded(st) && st.lastReap <= st.now && Enabled(st, a)
    ensures Bounded(Next(st, a))
  {
    match a
    case Reap => ReapBounded(st);
    case Insert(id) => assert st.created[id := st.now].Keys == st.created.Keys + {id};
    case Remove(id) => SubsetSize((st.created - {id}).Keys, st.created.Keys);
    case _ =>
  }

  lemma ReapPunctual(st: State)
    requires Punctual(st) && Enabled(st, Reap)
    ensures Punctual(Next(st, Reap))
  {
    var batch := |Expired(Expiries(st), st.now)|;
    assert batch >= 1 ==> (batch - batch + 1) * LIMIT == LIMIT;
    assert 0 <= Absence(batch);
  }

  lemma DestroyedPunctual(st: State)
    requires Punctual(st) && Enabled(st, Destroyed)
    ensures Punctual(Next(st, Destroyed))
  {
    var done := st.batch - st.reaper.left + 1;
    assert (done + 1) * LIMIT == done * LIMIT + LIMIT;
    Longer(done, st.batch);
  }

  lemma ElapsePunctual(st: State, dt: int)
    requires Punctual(st) && Enabled(st, Elapse(dt))
    ensures Punctual(Next(st, Elapse(dt)))
  {
    if st.reaper.Destroying? {
      Longer(st.batch - st.reaper.left + 1, st.batch);
    }
  }

  /** The time for some sandboxes of a batch is within the reaper's absence. */
  lemma Longer(done: int, batch: nat)
    requires 1 <= done <= batch
    ensures done * LIMIT <= Absence(batch) && 0 <= done * LIMIT
  {
    assert batch * LIMIT == done * LIMIT + (batch - done) * LIMIT;
  }

  lemma StepPunctual(st: State, a: Action)
    requires Punctual(st) && Enabled(st, a)
    ensures Punctual(Next(st, a))
  {
    match a
    case Reap => ReapPunctual(st);
    case Destroyed => DestroyedPunctual(st);
    case Elapse(dt) => ElapsePunctual(st, dt);
    case _ =>
  }

  lemma {:induction false} RunInvariant(run: seq<State>, n: nat)
    requires IsRun(run) && n < |run|
    ensures Punctual(run[n]) && Bounded(run[n])
  {
    if n > 0 {
      RunInvariant(run, n - 1);
      assert StepAt(run, n - 1);
      var a :| Enabled(run[n - 1], a) && run[n] == Next(run[n - 1], a);
      StepBounded(run[n - 1], a);
      StepPunctual(run[n - 1], a);
    }
  }

  /** The guard on insertions restrains no server: whenever a handler of the lifecycle is about to
      insert its session, a state with the same cap and the same sessions lets it. */
  lemma GuardAlwaysMet(run: seq<Lifecycle.State>, n: nat, t: Lifecycle.ThreadId, st: State)
    requires Lifecycle.IsRun(run) && n < |run| && t in run[n].threads && run[n].threads[t].Insert?
    requires st.max == run[n].max && st.created.Keys == run[n].sh.sessions.Keys
    ensures Enabled(st, Insert(run[n].threads[t].id))
  {
    LifecycleTheorems.RegistryWithinCap(run, n);
    assert |st.created| == |st.created.Keys| && |run[n].sh.sessions| == |run[n].sh.sessions.Keys|;
  }

  /** No session is in the registry later than its lifetime plus ten seconds for each slot of
      the cap, although reaping is sequential and ticks are dropped. */
  lemma ResidencyBound(run: seq<State>, n: nat, id: SessionId)
    requires IsRun(run) && n < |run| && id in run[n].created
    ensures run[n].now <= run[n].created[id] + run[n].ttl + 10 * SECOND * run[n].max
  {
    RunInvariant(run, n);
  }

  /** The sharper form: what matters is how many sessions the previous reap removed. */
  lemma ResidencyByBatch(run: seq<State>, n: nat, id: SessionId)
    requires IsRun(run) && n < |run| && id in run[n].created
    ensures run[n].now <= run[n].created[id] + run[n].ttl + Absence(run[n].batch)
  {
    RunInvariant(run, n);
  }
}

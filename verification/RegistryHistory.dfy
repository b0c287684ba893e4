/** Whole histories of the registry, with the reaper and without it. */
module RegistryHistory {
  import opened Bindings
  import opened Registry

  datatype Op =
    | Insert(id: SessionId, expiry: int, now: int)
    | Destroy(id: SessionId, now: int)
    | Attach(id: SessionId, now: int)        // finds expiry and destroys, or leaves the registry alone
    | Reap(now: int)

  function Apply(reaping: bool, sessions: Sessions, op: Op): Sessions {
    match op
    case Insert(id, expiry, _) => sessions[id := expiry]
    case Destroy(id, _) => sessions - {id}
    case Attach(id, now) => if Get(sessions, id, now).PastExpiry? then sessions - {id} else sessions
    case Reap(now) => if reaping then sessions - Expired(sessions, now) else sessions
  }

  /** The registry after a history; without `reaping` its reaps do nothing. */
  function Replay(reaping: bool, ops: seq<Op>): Sessions {
    if ops == [] then map[] else Apply(reaping, Replay(reaping, ops[..|ops| - 1]), ops[|ops| - 1])
  }

  predicate Monotone(ops: seq<Op>) {
    forall i, j | 0 <= i < j < |ops| :: ops[i].now <= ops[j].now
  }

  /** The reaped registry is the other one without some sessions past their expiry. */
  ghost predicate Trails(reaped: Sessions, full: Sessions, now: int) {
    && (forall s <- reaped :: s in full && full[s] == reaped[s])
    && (forall s <- full :: s in reaped || now > full[s])
  }

  lemma {:induction false} ReplayTrails(ops: seq<Op>, now: int)
    requires Monotone(ops) && (ops != [] ==> ops[|ops| - 1].now <= now)
    ensures Trails(Replay(true, ops), Replay(false, ops), now)
  {
    if ops != [] {
      ReplayTrails(ops[..|ops| - 1], ops[|ops| - 1].now);
    }
  }

  /** Under a clock that does not go backwards no Get or Attach succeeds or fails, and no count
      changes, because the reaper ran: not in any history, however often it ran.  All that may
      change is the name of the failure, and that only for a session that was reaped.  Get and
      ActiveCount disagree exactly on the sessions at their expiry instant, reaped or not. */
  lemma ReapingUnobservable(ops: seq<Op>, now: int, id: SessionId)
    requires Monotone(ops) && (ops != [] ==> ops[|ops| - 1].now <= now)
    ensures var reaped, full := Replay(true, ops), Replay(false, ops);
      && (Get(reaped, id, now).Found? <==> Get(full, id, now).Found?)
      && Active(reaped, now) == Active(full, now)
      && (Get(reaped, id, now) != Get(full, id, now) ==>
            id in full.Keys - reaped.Keys && Get(full, id, now) == PastExpiry && Get(reaped, id, now) == NotFound)
      && (forall s :: Get(reaped, s, now).Found? && s !in Active(reaped, now) <==> s in full && full[s] == now)
      && (forall s <- Active(reaped, now) :: Get(reaped, s, now).Found?)
  {
    ReplayTrails(ops, now);
    var reaped, full := Replay(true, ops), Replay(false, ops);
    assert forall s :: s in Active(full, now) <==> s in Active(reaped, now);
  }

  /** After an Attach no expired entry of the session is left; a live one stays, and so do all other
      sessions. */
  lemma AttachLeavesNoExpired(reaping: bool, ops: seq<Op>, id: SessionId, now: int)
    ensures var before, after := Replay(reaping, ops), Replay(reaping, ops + [Attach(id, now)]);
      && (id in after <==> id in before && now <= before[id])
      && after - {id} == before - {id} && (id in after ==> after[id] == before[id])
  {
    assert (ops + [Attach(id, now)])[..|ops|] == ops;
  }

  /** After a reap nothing expired is left, and nothing else is gone. */
  lemma ReapLeavesNoExpired(ops: seq<Op>, now: int, id: SessionId)
    ensures var before, after := Replay(true, ops), Replay(true, ops + [Reap(now)]);
      && (id in after <==> id in before && now <= before[id])
      && (id in after ==> after[id] == before[id])
  {
    assert (ops + [Reap(now)])[..|ops|] == ops;
  }
}

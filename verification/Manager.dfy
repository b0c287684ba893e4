/** The session manager and the create handler as objects.

    `View` gathers what the lifecycle's threads share.  The teardown methods promise the effect of
    the program that their thread runs in the lifecycle.
  */
module Manager {
  import opened Common
  import opened Bindings
  import opened Teardown
  import opened Registry
  import opened Server
  import Limiter

  datatype Attachment = Attached | NoSession | WasExpired

  lemma CallbacksHead(ids: seq<SessionId>, i: nat, rest: seq<Instr>)
    requires i < |ids|
    ensures Callbacks(ids[i..]) + rest == [Unbind(ids[i]), ReturnSlot(ids[i])] + (Callbacks(ids[i + 1..]) + rest)
  {
    assert ids[i..][0] == ids[i] && ids[i..][1..] == ids[i + 1..];
  }

  /** What a Single comes to. */
  lemma SingleEffect(sh: Shared, id: SessionId)
    ensures RunProgram(sh, Single(id))
         == Shared(Returned(sh.active, 1), sh.sessions, Release(sh.bindings, id), sh.running - {id})
  {
    OneByOneEffect(sh, [id]);
    assert OneByOne([id]) == Single(id);
    assert ReleaseAll(sh.bindings, [id]) == Release(sh.bindings, id);
    assert sh.running - {id} == sh.running - (set s | s in [id]);
  }

  class Manager {
    const guard: Guard
    const ttl: nat
    var sessions: map<SessionId, int>
    var running: set<SessionId>
    ghost var trace: seq<Instr>    // the teardown steps so far

    constructor (guard: Guard, ttl: nat)
      ensures this.guard == guard && this.ttl == ttl && sessions == map[] && running == {} && trace == []
    {
      this.guard, this.ttl, sessions, running, trace := guard, ttl, map[], {}, [];
    }

    ghost function View(): Shared
      reads this, guard, guard.concurrency
    {
      Shared(guard.concurrency.active, sessions, guard.Maps(), running)
    }

    /** Provisions a sandbox under a fresh id, or reports the backend's failure. */
    method Create(id: SessionId, provisioned: bool, now: int) returns (ok: bool)
      modifies this`sessions, this`running
      ensures ok == provisioned
      ensures View() ==
        if ok then old(View()).(sessions := old(sessions)[id := now + ttl], running := old(running) + {id})
        else old(View())
    {
      if !provisioned {
        return false;
      }
      running := running + {id};
      sessions := sessions[id := now + ttl];
      return true;
    }

    method Get(id: SessionId, now: int) returns (found: Lookup)
      ensures found == NotFound <==> id !in sessions
      ensures found == PastExpiry <==> id in sessions && now > sessions[id]
    {
      if id !in sessions {
        return NotFound;
      }
      if now > sessions[id] {
        return PastExpiry;
      }
      return Found;
    }

    method ActiveCount(now: int) returns (count: nat)
      ensures count == |set s | s in sessions && sessions[s] > now|
    {
      count := 0;
      var rest := sessions.Keys;
      while rest != {}
        invariant rest <= sessions.Keys
        invariant count == |Active(sessions, now) - rest|
        decreases |rest|
      {
        var id :| id in rest;
        if sessions[id] > now {
          assert Active(sessions, now) - (rest - {id}) == (Active(sessions, now) - rest) + {id};
          count := count + 1;
        } else {
          assert Active(sessions, now) - (rest - {id}) == Active(sessions, now) - rest;
        }
        rest := rest - {id};
      }
      assert Active(sessions, now) - rest == Active(sessions, now);
    }

    /** The callback that main wires: unbind the device, then return the slot. */
    method OnDestroy(id: SessionId)
      modifies this`trace, guard, guard.concurrency`active
      ensures View() == old(View()).(active := Returned(old(guard.concurrency.active), 1),
                                     bindings := Release(old(guard.Maps()), id))
      ensures trace == old(trace) + [Unbind(id), ReturnSlot(id)]
    {
      guard.ReleaseSession(id);
      trace := trace + [Unbind(id)];
      guard.concurrency.Release();
      trace := trace + [ReturnSlot(id)];
    }

    method DestroySandbox(id: SessionId)
      modifies this`trace, this`running
      ensures running == old(running) - {id} && trace == old(trace) + [Kill(id)]
    {
      running := running - {id};
      trace := trace + [Kill(id)];
    }

    method Destroy(id: SessionId)
      modifies this, guard, guard.concurrency`active
      ensures id !in old(sessions) ==> View() == old(View()) && trace == old(trace)
      ensures id in old(sessions) ==> trace == old(trace) + Single(id)
      ensures id in old(sessions) ==>
        View() == RunProgram(old(View()).(sessions := old(sessions) - {id}), Single(id))
    {
      if id !in sessions {
        return;
      }
      sessions := sessions - {id};
      ghost var start := View();
      OneByOneEffect(start, [id]);
      assert OneByOne([id]) == Single(id);
      OnDestroy(id);
      DestroySandbox(id);
      assert ReleaseAll(start.bindings, [id]) == Release(start.bindings, id);
      assert start.running - {id} == start.running - (set s | s in [id]);
    }

    /** Attaching to an expired session destroys it: it leaves the registry, its device is unbound,
        its slot goes back and its sandbox is gone.  Attaching to a live one changes nothing. */
    method Attach(id: SessionId, now: int) returns (result: Attachment)
      modifies this, guard, guard.concurrency`active
      ensures result == NoSession <==> id !in old(sessions)
      ensures result == WasExpired <==> id in old(sessions) && now > old(sessions)[id]
      ensures !result.WasExpired? ==> View() == old(View()) && trace == old(trace)
      ensures result.WasExpired? ==> trace == old(trace) + Single(id)
      ensures result.WasExpired? ==>
        View() == RunProgram(old(View()).(sessions := old(sessions) - {id}), Single(id))
      ensures result.WasExpired? ==>
        && sessions == old(sessions) - {id} && running == old(running) - {id} && id !in guard.sessionDevices
        && guard.concurrency.active
           == (if old(guard.concurrency.active) > 0 then old(guard.concurrency.active) - 1 else 0)
    {
      if id !in sessions {
        return NoSession;
      }
      if now > sessions[id] {
        SingleEffect(View().(sessions := sessions - {id}), id);
        Destroy(id);
        return WasExpired;
      }
      return Attached;
    }

    /** One tick of the reaper: takes out exactly the sessions past their expiry, then tears them
        down one after another. */
    method ReapExpired(now: int) returns (expired: seq<SessionId>)
      modifies this, guard, guard.concurrency`active
      ensures Distinct(expired) && forall s :: s in expired <==> s in old(sessions) && now > old(sessions)[s]
      ensures forall s :: s in sessions <==> s in old(sessions) && now <= old(sessions)[s]
      ensures sessions == old(sessions) - (set s | s in expired)
      ensures trace == old(trace) + OneByOne(expired)
      ensures View() == RunProgram(old(View()).(sessions := sessions), OneByOne(expired))
    {
      expired := WalkExpired(now);
      sessions := sessions - (set s | s in expired);
      ghost var start := View();
      for i := 0 to |expired|
        invariant sessions == start.sessions
        invariant RunProgram(View(), OneByOne(expired[i..])) == RunProgram(start, OneByOne(expired))
        invariant trace + OneByOne(expired[i..]) == old(trace) + OneByOne(expired)
      {
        assert expired[i..][0] == expired[i] && expired[i..][1..] == expired[i + 1..];
        ghost var before := trace;
        TearDown(expired[i], OneByOne(expired[i + 1..]));
        Regroup(before, Single(expired[i]), OneByOne(expired[i + 1..]));
      }
      Regroup(trace, [], []);
    }

    /** Callback and sandbox of one session; `rest` is what the caller still has to do. */
    method TearDown(id: SessionId, ghost rest: seq<Instr>)
      modifies this`trace, this`running, guard, guard.concurrency`active
      ensures RunProgram(View(), rest) == RunProgram(old(View()), Single(id) + rest)
      ensures trace == old(trace) + Single(id)
    {
      assert Single(id) + rest == [Unbind(id), ReturnSlot(id)] + ([Kill(id)] + rest);
      RunOneCallback(id, [Kill(id)] + rest);
      assert ([Kill(id)] + rest)[1..] == rest;
      DestroySandbox(id);
    }

    /** The callbacks of all sessions; `rest` is what the caller still has to do. */
    method RunCallbacks(ids: seq<SessionId>, ghost rest: seq<Instr>)
      modifies this`trace, guard, guard.concurrency`active
      ensures RunProgram(View(), rest) == RunProgram(old(View()), Callbacks(ids) + rest)
      ensures trace == old(trace) + Callbacks(ids)
    {
      ghost var goal := RunProgram(View(), Callbacks(ids) + rest);
      for i := 0 to |ids|
        invariant RunProgram(View(), Callbacks(ids[i..]) + rest) == goal
        invariant trace + Callbacks(ids[i..]) == old(trace) + Callbacks(ids)
      {
        ghost var tail, before := Callbacks(ids[i + 1..]) + rest, trace;
        CallbacksHead(ids, i, rest);
        CallbacksHead(ids, i, []);
        RunOneCallback(ids[i], tail);
        Regroup(before, [Unbind(ids[i]), ReturnSlot(ids[i])], Callbacks(ids[i + 1..]));
      }
      assert Callbacks(ids[|ids|..]) + rest == rest;
      Regroup(trace, [], []);
    }

    method RunOneCallback(id: SessionId, ghost rest: seq<Instr>)
      modifies this`trace, guard, guard.concurrency`active
      ensures RunProgram(View(), rest) == RunProgram(old(View()), [Unbind(id), ReturnSlot(id)] + rest)
      ensures trace == old(trace) + [Unbind(id), ReturnSlot(id)]
    {
      RunCallback(View(), id, rest);
      OnDestroy(id);
    }

    method DestroySandboxes(ids: seq<SessionId>)
      modifies this`trace, this`running
      ensures running == old(running) - (set s | s in ids)
      ensures trace == old(trace) + Kills(ids)
    {
      for i := 0 to |ids|
        invariant running == old(running) - (set s | s in ids[..i])
        invariant trace == old(trace) + Kills(ids)[..i]
      {
        DestroySandbox(ids[i]);
      }
      assert ids[..|ids|] == ids;
    }

    /** The scan under the lock, in whatever order the map is walked. */
    method WalkExpired(now: int) returns (expired: seq<SessionId>)
      ensures Enumerates(expired, Expired(sessions, now))
    {
      expired := [];
      var rest := sessions.Keys;
      while rest != {}
        invariant rest <= sessions.Keys
        invariant Enumerates(expired, Expired(sessions, now) - rest)
        decreases |rest|
      {
        var id :| id in rest;
        if now > sessions[id] {
          expired := expired + [id];
        }
        rest := rest - {id};
      }
    }

    method WalkAll() returns (all: seq<SessionId>)
      ensures Enumerates(all, sessions.Keys)
    {
      all := [];
      var rest := sessions.Keys;
      while rest != {}
        invariant rest <= sessions.Keys
        invariant Enumerates(all, sessions.Keys - rest)
        decreases |rest|
      {
        var id :| id in rest;
        all := all + [id];
        rest := rest - {id};
      }
    }

    /** Shutdown, after the reaper has stopped: empties the registry and runs every callback
        before it destroys any sandbox. */
    method Close() returns (all: seq<SessionId>)
      modifies this, guard, guard.concurrency`active
      ensures trace == old(trace) + CallbacksFirst(all)
      ensures Enumerates(all, old(sessions).Keys) && sessions == map[]
      ensures View() == RunProgram(old(View()).(sessions := map[]), CallbacksFirst(all))
    {
      all := WalkAll();
      sessions := map[];
      RunCallbacks(all, Kills(all));
      KillsEffect(View(), all);
      Regroup(old(trace), Callbacks(all), Kills(all));
      DestroySandboxes(all);
    }
  }

  datatype Response = BadRequest | Rejected(why: Refusal) | ProvisionFailed | Created(id: SessionId)

  /** SessionHandler.Create, alone on the server: a response other than Created leaves counter,
      registry, bindings and sandboxes exactly as they were; Created takes one slot and hands it
      to a new registered and bound session. */
  method HandleCreate(mngr: Manager, payloadOk: bool, ip: string, device: DeviceId, challenge: Challenge,
                      id: SessionId, provisioned: bool, now: int, exact: bool)
    returns (response: Response, ghost check: Check, ghost after: Limiter.State<string>)
    requires mngr.guard.Valid() && 0 <= mngr.guard.concurrency.active
    requires mngr !in mngr.guard.rateLimiter.Repr
    modifies mngr, mngr.guard, mngr.guard.concurrency, mngr.guard.rateLimiter, mngr.guard.rateLimiter.Repr
    ensures mngr.guard.Valid()
    ensures mngr.guard.rateLimiter.Abs() == after
    ensures !payloadOk ==> response.BadRequest? && after == old(mngr.guard.rateLimiter.Abs())
    ensures payloadOk ==> Judged(check, mngr.guard.rateLimiter.cfg, old(mngr.guard.rateLimiter.Abs()), after, ip,
      device, now, exact, device in old(mngr.guard.deviceSessions),
      old(mngr.guard.concurrency.active) >= mngr.guard.concurrency.maxConcurrent, challenge)
    ensures payloadOk ==>
      response == (if check.Refused? then Rejected(check.why) else if provisioned then Created(id) else ProvisionFailed)
    ensures response.Created? ==> mngr.View() == Shared(
      old(mngr.View()).active + 1, old(mngr.sessions)[id := now + mngr.ttl],
      Table(old(mngr.guard.deviceSessions)[device := id], old(mngr.guard.sessionDevices)[id := device]),
      old(mngr.running) + {id})
    ensures !response.Created? ==> mngr.View() == old(mngr.View())
  {
    if !payloadOk {
      return BadRequest, Passed, mngr.guard.rateLimiter.Abs();
    }
    var passed, releaseSlot := mngr.guard.CheckAnonymousCreate(ip, device, challenge, now, exact);
    check, after := passed, mngr.guard.rateLimiter.Abs();
    if passed.Refused? {
      return Rejected(passed.why), passed, after;
    }
    response := Provision(mngr, device, releaseSlot, id, provisioned, now);
  }

  /** The second half, with a slot in hand: it is handed over to the new session or given back. */
  method Provision(mngr: Manager, device: DeviceId, releaseSlot: SlotLease, id: SessionId, provisioned: bool, now: int)
    returns (response: Response)
    requires releaseSlot.limiter == mngr.guard.concurrency && !releaseSlot.slotReleased
    requires 1 <= mngr.guard.concurrency.active && mngr.guard.Valid()
    requires mngr !in mngr.guard.rateLimiter.Repr && releaseSlot !in mngr.guard.rateLimiter.Repr
    modifies mngr`sessions, mngr`running, mngr.guard`deviceSessions, mngr.guard`sessionDevices
    modifies releaseSlot, mngr.guard.concurrency`active
    ensures mngr.guard.Valid() && mngr.guard.rateLimiter.Abs() == old(mngr.guard.rateLimiter.Abs())
    ensures response == if provisioned then Created(id) else ProvisionFailed
    ensures provisioned ==> mngr.View() == Shared(
      old(mngr.guard.concurrency.active), old(mngr.sessions)[id := now + mngr.ttl],
      Table(old(mngr.guard.deviceSessions)[device := id], old(mngr.guard.sessionDevices)[id := device]),
      old(mngr.running) + {id})
    ensures !provisioned ==>
      mngr.View() == old(mngr.View()).(active := old(mngr.guard.concurrency.active) - 1)
  {
    var ok := mngr.Create(id, provisioned, now);
    if !ok {
      releaseSlot.Release();
      return ProvisionFailed;
    }
    mngr.guard.RegisterSession(device, id);
    return Created(id);
  }
}

/** What every remover of a session still has to do once the session has left the registry.

    Destroy, an expired Attach, the reaper and Close share one teardown: run the wired callback
    (unbind the device, then return the sandbox slot) and destroy the sandbox.  They differ only
    in how they order the steps of several sessions.  A teardown is written as a program of
    atomic steps, so that the sequential methods and the interleaved threads run the same one.
  */
module Teardown {
  import opened Bindings

  /** The state that all threads of the server share. */
  datatype Shared = Shared(
    active: int,                      // the slot counter
    sessions: map<SessionId, int>,    // the registry: id to expiry instant
    bindings: Table,                  // the guard's two maps
    running: set<SessionId>)          // sandboxes created and not yet destroyed

  datatype Instr =
    | Unbind(id: SessionId)      // guard.ReleaseSession
    | ReturnSlot(id: SessionId)  // the add of ConcurrencyLimiter.Release
    | Clamp(id: SessionId)       // its store of zero, reached only when the add went negative
    | Kill(id: SessionId)        // the sandbox's own Destroy

  function Effect(sh: Shared, i: Instr): Shared {
    match i
    case Unbind(id) => sh.(bindings := Release(sh.bindings, id))
    case ReturnSlot(_) => sh.(active := sh.active - 1)
    case Clamp(_) => sh.(active := 0)
    case Kill(id) => sh.(running := sh.running - {id})
  }

  /** The program that is left once the head of `prog` has run in `sh`. */
  function Rest(sh: Shared, prog: seq<Instr>): seq<Instr>
    requires prog != []
  {
    if prog[0].ReturnSlot? && sh.active - 1 < 0 then [Clamp(prog[0].id)] + prog[1..] else prog[1..]
  }

  function Cost(prog: seq<Instr>): nat {
    if prog == [] then 0 else (if prog[0].ReturnSlot? then 2 else 1) + Cost(prog[1..])
  }

  /** Runs a program with nobody else in between. */
  function RunProgram(sh: Shared, prog: seq<Instr>): Shared
    decreases Cost(prog)
  {
    if prog == [] then sh
    else
      assert ([Clamp(prog[0].id)] + prog[1..])[1..] == prog[1..];
      RunProgram(Effect(sh, prog[0]), Rest(sh, prog))
  }

  /** Destroy: one session. */
  function Single(id: SessionId): seq<Instr> {
    [Unbind(id), ReturnSlot(id), Kill(id)]
  }

  /** The reaper: one session after another. */
  function OneByOne(ids: seq<SessionId>): seq<Instr> {
    if ids == [] then [] else Single(ids[0]) + OneByOne(ids[1..])
  }

  function Callbacks(ids: seq<SessionId>): seq<Instr> {
    if ids == [] then [] else [Unbind(ids[0]), ReturnSlot(ids[0])] + Callbacks(ids[1..])
  }

  function Kills(ids: seq<SessionId>): seq<Instr> {
    seq(|ids|, i requires 0 <= i < |ids| => Kill(ids[i]))
  }

  /** Close: every callback before any sandbox is destroyed. */
  function CallbacksFirst(ids: seq<SessionId>): seq<Instr> {
    Callbacks(ids) + Kills(ids)
  }

  /** The reaper's program, step by step: each session's three steps together. */
  lemma {:induction false} OneByOneOrder(ids: seq<SessionId>, i: nat)
    requires i < |ids|
    ensures |OneByOne(ids)| == 3 * |ids|
    ensures OneByOne(ids)[3 * i] == Unbind(ids[i]) && OneByOne(ids)[3 * i + 1] == ReturnSlot(ids[i])
    ensures OneByOne(ids)[3 * i + 2] == Kill(ids[i])
  {
    if |ids| > 1 {
      OneByOneOrder(ids[1..], if i > 0 then i - 1 else 0);
    }
  }

  lemma {:induction false} CallbacksOrder(ids: seq<SessionId>, i: nat)
    requires i < |ids|
    ensures |Callbacks(ids)| == 2 * |ids|
    ensures Callbacks(ids)[2 * i] == Unbind(ids[i]) && Callbacks(ids)[2 * i + 1] == ReturnSlot(ids[i])
  {
    if |ids| > 1 {
      CallbacksOrder(ids[1..], if i > 0 then i - 1 else 0);
    }
  }

  /** Close's program, step by step: no sandbox is destroyed before the last callback. */
  lemma CallbacksFirstOrder(ids: seq<SessionId>, i: nat)
    requires i < |ids|
    ensures |CallbacksFirst(ids)| == 3 * |ids|
    ensures CallbacksFirst(ids)[2 * i] == Unbind(ids[i]) && CallbacksFirst(ids)[2 * i + 1] == ReturnSlot(ids[i])
    ensures CallbacksFirst(ids)[2 * |ids| + i] == Kill(ids[i])
  {
    CallbacksOrder(ids, i);
  }

  // ----- the shape of a teardown

  ghost predicate Distinct<T(!new)>(s: seq<T>) {
    forall i, j | 0 <= i < j < |s| :: s[i] != s[j]
  }

  /** The step of a session that must come later than `i`. */
  function Successor(i: Instr): Instr {
    match i
    case Unbind(id) => ReturnSlot(id)
    case ReturnSlot(id) => Kill(id)
    case Clamp(id) => Kill(id)
    case Kill(id) => Kill(id)
  }

  ghost predicate FollowedUp(prog: seq<Instr>, i: nat)
    requires i < |prog|
  {
    prog[i].Kill? || Successor(prog[i]) in prog[i + 1..]
  }

  /** No step twice, no clamp, and each step is followed by its successor. */
  ghost predicate WellFormed(prog: seq<Instr>) {
    && Distinct(prog)
    && (forall i <- prog :: !i.Clamp?)
    && (forall i: nat | i < |prog| :: FollowedUp(prog, i))
  }

  /** `prog` holds the three steps of exactly the sessions in `ids`. */
  ghost predicate TearsDown(prog: seq<Instr>, ids: seq<SessionId>) {
    forall i: Instr :: i in prog <==> i.id in ids && !i.Clamp?
  }

  lemma TailWellFormed(prog: seq<Instr>)
    requires WellFormed(prog) && prog != []
    ensures WellFormed(prog[1..]) && prog[0] !in prog[1..]
  {
    var tail := prog[1..];
    forall i: nat | i < |tail| ensures FollowedUp(tail, i) {
      assert FollowedUp(prog, i + 1) && tail[i + 1..] == prog[i + 2..];
    }
  }

  /** In a well-formed program a step cannot run while an earlier step of its session waits. */
  lemma HeadHasNoPredecessor(prog: seq<Instr>, i: Instr)
    requires WellFormed(prog) && prog != [] && i in prog && !i.Kill?
    ensures Successor(i) in prog[1..] && Successor(i) != prog[0]
  {
    var k :| 0 <= k < |prog| && prog[k] == i;
    assert FollowedUp(prog, k);
    var j :| k + 1 <= j < |prog| && prog[j] == Successor(i);
    assert prog[1..][j - 1] == Successor(i);
  }

  lemma SingleWellFormed(id: SessionId)
    ensures WellFormed(Single(id)) && TearsDown(Single(id), [id])
  {
    var prog := Single(id);
    assert prog[1..] == [ReturnSlot(id), Kill(id)] && prog[2..] == [Kill(id)];
    assert FollowedUp(prog, 0) && FollowedUp(prog, 1) && FollowedUp(prog, 2);
    forall i: Instr | i.id in [id] && !i.Clamp? ensures i in prog {
      assert i == prog[0] || i == prog[1] || i == prog[2];
    }
  }

  lemma {:induction false} OneByOneMembers(ids: seq<SessionId>)
    ensures TearsDown(OneByOne(ids), ids)
  {
    if ids != [] {
      var head, tail := Single(ids[0]), OneByOne(ids[1..]);
      OneByOneMembers(ids[1..]);
      SingleWellFormed(ids[0]);
      assert forall i :: i in OneByOne(ids) <==> i in head || i in tail;
      assert forall id :: id in ids <==> id == ids[0] || id in ids[1..];
    }
  }

  lemma {:induction false} OneByOneFollowedUp(ids: seq<SessionId>, i: nat)
    requires i < |OneByOne(ids)|
    ensures FollowedUp(OneByOne(ids), i)
  {
    var head, tail, prog := Single(ids[0]), OneByOne(ids[1..]), OneByOne(ids);
    if i < 2 {
      assert prog[i + 1..][0] == Successor(prog[i]);
    } else if i > 2 {
      OneByOneFollowedUp(ids[1..], i - 3);
      assert prog[i + 1..] == tail[i - 2..];
    }
  }

  lemma {:induction false} OneByOneDistinct(ids: seq<SessionId>)
    requires Distinct(ids)
    ensures Distinct(OneByOne(ids))
  {
    if ids != [] {
      OneByOneDistinct(ids[1..]);
      OneByOneMembers(ids[1..]);
      assert ids[0] !in ids[1..];
      var tail, prog := OneByOne(ids[1..]), OneByOne(ids);
      forall i, j | 0 <= i < j < |prog| ensures prog[i] != prog[j] {
        if i < 3 <= j {
          assert prog[i].id == ids[0] && prog[j] == tail[j - 3] && tail[j - 3] in tail;
        }
      }
    }
  }

  lemma OneByOneWellFormed(ids: seq<SessionId>)
    requires Distinct(ids)
    ensures WellFormed(OneByOne(ids)) && TearsDown(OneByOne(ids), ids)
  {
    OneByOneMembers(ids);
    OneByOneDistinct(ids);
    forall i: nat | i < |OneByOne(ids)| ensures FollowedUp(OneByOne(ids), i) {
      OneByOneFollowedUp(ids, i);
    }
  }

  lemma {:induction false} CallbacksMembers(ids: seq<SessionId>)
    ensures forall i: Instr :: i in Callbacks(ids) <==> i.id in ids && (i.Unbind? || i.ReturnSlot?)
  {
    if ids != [] {
      var head, tail := [Unbind(ids[0]), ReturnSlot(ids[0])], Callbacks(ids[1..]);
      CallbacksMembers(ids[1..]);
      assert forall i :: i in Callbacks(ids) <==> i in head || i in tail;
      assert forall id :: id in ids <==> id == ids[0] || id in ids[1..];
    }
  }

  lemma {:induction false} CallbacksDistinct(ids: seq<SessionId>)
    requires Distinct(ids)
    ensures Distinct(Callbacks(ids))
  {
    if ids != [] {
      CallbacksDistinct(ids[1..]);
      CallbacksMembers(ids[1..]);
      assert ids[0] !in ids[1..];
      var tail, prog := Callbacks(ids[1..]), Callbacks(ids);
      forall i, j | 0 <= i < j < |prog| ensures prog[i] != prog[j] {
        if i < 2 <= j {
          assert prog[i].id == ids[0] && prog[j] == tail[j - 2] && tail[j - 2] in tail;
        }
      }
    }
  }

  lemma {:induction false} CallbacksPaired(ids: seq<SessionId>, k: nat)
    requires k < |Callbacks(ids)| && Callbacks(ids)[k].Unbind?
    ensures k + 1 < |Callbacks(ids)| && Callbacks(ids)[k + 1] == Successor(Callbacks(ids)[k])
  {
    if k >= 2 {
      CallbacksPaired(ids[1..], k - 2);
    }
  }

  lemma KillsShape(ids: seq<SessionId>)
    requires Distinct(ids)
    ensures Distinct(Kills(ids)) && forall i: Instr :: i in Kills(ids) <==> i.id in ids && i.Kill?
  {
    forall i: Instr | i.id in ids && i.Kill? ensures i in Kills(ids) {
      var k :| 0 <= k < |ids| && ids[k] == i.id;
      assert Kills(ids)[k] == i;
    }
  }

  lemma CallbacksFirstFollowedUp(ids: seq<SessionId>, i: nat)
    requires i < |CallbacksFirst(ids)|
    ensures FollowedUp(CallbacksFirst(ids), i)
  {
    var calls, prog := Callbacks(ids), CallbacksFirst(ids);
    if i < |calls| && calls[i].Unbind? {
      CallbacksPaired(ids, i);
      assert prog[i + 1..][0] == Successor(prog[i]);
    } else if i < |calls| {
      CallbacksMembers(ids);
      assert calls[i] in calls;
      var k :| 0 <= k < |ids| && ids[k] == calls[i].id;
      assert prog[i + 1..][|calls| - i - 1 + k] == Kills(ids)[k] == Successor(prog[i]);
    }
  }

  lemma CallbacksFirstWellFormed(ids: seq<SessionId>)
    requires Distinct(ids)
    ensures WellFormed(CallbacksFirst(ids)) && TearsDown(CallbacksFirst(ids), ids)
  {
    CallbacksMembers(ids);
    KillsShape(ids);
    var calls, kills, prog := Callbacks(ids), Kills(ids), CallbacksFirst(ids);
    assert forall i :: i in prog <==> i in calls || i in kills;
    forall i: nat | i < |prog| ensures FollowedUp(prog, i) {
      CallbacksFirstFollowedUp(ids, i);
    }
    CallbacksFirstDistinct(ids);
  }

  lemma CallbacksFirstDistinct(ids: seq<SessionId>)
    requires Distinct(ids)
    ensures Distinct(CallbacksFirst(ids))
  {
    CallbacksDistinct(ids);
    CallbacksMembers(ids);
    KillsShape(ids);
    var calls, kills, prog := Callbacks(ids), Kills(ids), CallbacksFirst(ids);
    forall i, j | 0 <= i < j < |prog| ensures prog[i] != prog[j] {
      if i < |calls| <= j {
        assert calls[i] in calls && kills[j - |calls|] in kills;
      }
    }
  }

  // ----- the effect of a teardown that nobody interrupts

  /** The counter after `n` slots were returned, clamps included. */
  function Returned(active: int, n: nat): int {
    if n == 0 then active else if active - n < 0 then 0 else active - n
  }

  /** Everything a teardown of `ids` changes, whatever the order of its steps. */
  function TornDown(sh: Shared, ids: seq<SessionId>): Shared {
    Shared(Returned(sh.active, |ids|), sh.sessions, ReleaseAll(sh.bindings, ids), sh.running - (set s | s in ids))
  }

  lemma RunUnbind(sh: Shared, id: SessionId, tail: seq<Instr>)
    ensures RunProgram(sh, [Unbind(id)] + tail) == RunProgram(sh.(bindings := Release(sh.bindings, id)), tail)
  {
    assert ([Unbind(id)] + tail)[1..] == tail;
  }

  lemma RunReturn(sh: Shared, id: SessionId, tail: seq<Instr>)
    ensures RunProgram(sh, [ReturnSlot(id)] + tail) == RunProgram(sh.(active := Returned(sh.active, 1)), tail)
  {
    assert ([ReturnSlot(id)] + tail)[1..] == tail;
    assert ([Clamp(id)] + tail)[1..] == tail;
  }

  lemma RunCallback(sh: Shared, id: SessionId, tail: seq<Instr>)
    ensures RunProgram(sh, [Unbind(id), ReturnSlot(id)] + tail)
         == RunProgram(sh.(active := Returned(sh.active, 1), bindings := Release(sh.bindings, id)), tail)
  {
    assert [Unbind(id), ReturnSlot(id)] + tail == [Unbind(id)] + ([ReturnSlot(id)] + tail);
    RunUnbind(sh, id, [ReturnSlot(id)] + tail);
    RunReturn(sh.(bindings := Release(sh.bindings, id)), id, tail);
  }

  lemma {:induction false} OneByOneEffect(sh: Shared, ids: seq<SessionId>)
    ensures RunProgram(sh, OneByOne(ids)) == TornDown(sh, ids)
    decreases |ids|
  {
    if ids == [] {
      assert sh.running == sh.running - (set s | s in ids);
    } else {
      var id, tail := ids[0], OneByOne(ids[1..]);
      assert OneByOne(ids) == [Unbind(id), ReturnSlot(id)] + ([Kill(id)] + tail);
      RunCallback(sh, id, [Kill(id)] + tail);
      assert ([Kill(id)] + tail)[1..] == tail;
      var next := sh.(active := Returned(sh.active, 1), bindings := Release(sh.bindings, id),
                      running := sh.running - {id});
      OneByOneEffect(next, ids[1..]);
      assert next.running - (set s | s in ids[1..]) == sh.running - (set s | s in ids);
    }
  }

  lemma {:induction false} CallbacksEffect(sh: Shared, ids: seq<SessionId>, tail: seq<Instr>)
    ensures RunProgram(sh, Callbacks(ids) + tail)
         == RunProgram(sh.(active := Returned(sh.active, |ids|), bindings := ReleaseAll(sh.bindings, ids)), tail)
    decreases |ids|
  {
    if ids == [] {
      assert Callbacks(ids) + tail == tail;
    } else {
      var id := ids[0];
      assert Callbacks(ids) + tail == [Unbind(id), ReturnSlot(id)] + (Callbacks(ids[1..]) + tail);
      RunCallback(sh, id, Callbacks(ids[1..]) + tail);
      CallbacksEffect(sh.(active := Returned(sh.active, 1), bindings := Release(sh.bindings, id)), ids[1..], tail);
    }
  }

  lemma {:induction false} KillsEffect(sh: Shared, ids: seq<SessionId>)
    ensures RunProgram(sh, Kills(ids)) == sh.(running := sh.running - (set s | s in ids))
    decreases |ids|
  {
    if ids == [] {
      assert sh.running == sh.running - (set s | s in ids);
    } else {
      assert Kills(ids)[0] == Kill(ids[0]) && Kills(ids)[1..] == Kills(ids[1..]);
      var next := sh.(running := sh.running - {ids[0]});
      KillsEffect(next, ids[1..]);
      assert next.running - (set s | s in ids[1..]) == sh.running - (set s | s in ids);
    }
  }

  /** Close and the reaper order their steps differently and end in the same state, as do any
      two orders in which the registry may be walked. */
  lemma TeardownOrderUnseen(sh: Shared, ids: seq<SessionId>, others: seq<SessionId>)
    requires Distinct(ids) && Distinct(others) && forall s :: s in ids <==> s in others
    ensures RunProgram(sh, CallbacksFirst(ids)) == RunProgram(sh, OneByOne(others))
  {
    OneByOneEffect(sh, others);
    CallbacksEffect(sh, ids, Kills(ids));
    KillsEffect(sh.(active := Returned(sh.active, |ids|), bindings := ReleaseAll(sh.bindings, ids)), ids);
    ReleaseAllEffect(sh.bindings, ids);
    ReleaseAllEffect(sh.bindings, others);
    assert (set s | s in ids) == (set s | s in others);
    DistinctSize(ids);
    DistinctSize(others);
  }

  lemma {:induction false} DistinctSize<T(!new)>(s: seq<T>)
    requires Distinct(s)
    ensures |set x | x in s| == |s|
  {
    if s == [] {
      assert (set x | x in s) == {};
    } else {
      DistinctSize(s[1..]);
      assert (set x | x in s) == {s[0]} + (set x | x in s[1..]);
    }
  }
}

/** Threads that nobody interrupts do what the sequential methods promise: a create handler, and the
    removers from their call to their end. */
module LifecycleAlone {
  import opened Bindings
  import opened Teardown
  import opened Registry
  import opened Lifecycle

  // ----- a thread that makes given choices

  ghost predicate CanPlay(st: State, t: ThreadId, script: seq<Choice>)
    decreases |script|
  {
    script == [] || (CanGo(st, t, script[0]) && CanPlay(Step(st, t, script[0]), t, script[1..]))
  }

  /** Where `t` is after making the choices of the script, alone. */
  ghost function Play(st: State, t: ThreadId, script: seq<Choice>): State
    requires CanPlay(st, t, script)
    decreases |script|
  {
    if script == [] then st else Play(Step(st, t, script[0]), t, script[1..])
  }

  /** `st` apart from the program counter of `t`, the shared state and the histories. */
  ghost predicate Stands(st: State, st': State, t: ThreadId, pc: Pc, sh: Shared) {
    && st'.max == st.max && st'.ttl == st.ttl && st'.now == st.now
    && st'.threads == st.threads[t := pc] && st'.sh == sh
  }

  /** After the script `t` is at `pc` and the shared state is `sh`. */
  ghost predicate PlaysTo(st: State, t: ThreadId, script: seq<Choice>, pc: Pc, sh: Shared) {
    CanPlay(st, t, script) && Stands(st, Play(st, t, script), t, pc, sh)
  }

  lemma PlayOne(st: State, t: ThreadId, c: Choice, rest: seq<Choice>, pc: Pc, sh: Shared, pc': Pc, sh': Shared)
    requires CanGo(st, t, c) && Stands(st, Step(st, t, c), t, pc, sh)
    requires PlaysTo(Step(st, t, c), t, rest, pc', sh')
    ensures PlaysTo(st, t, [c] + rest, pc', sh')
  {
    assert ([c] + rest)[0] == c && ([c] + rest)[1..] == rest;
  }

  // ----- a create

  function Opened(sh: Shared, d: DeviceId, id: SessionId, expires: int): Shared {
    Shared(sh.active + 1, sh.sessions[id := expires],
           Table(sh.bindings.deviceSessions[d := id], sh.bindings.sessionDevices[id := d]), sh.running + {id})
  }

  function Holding(sh: Shared): Shared {
    sh.(active := sh.active + 1)
  }

  /** The choices behind the slot: the challenge, the rate limiter and the backend. */
  function Layers(challenged: bool, admitted: bool, provisioned: bool, id: SessionId): seq<Choice> {
    if !challenged then [Fail, Pass]
    else if !admitted then [Pass, Fail, Pass]
    else if !provisioned then [Pass, Pass, Fail, Pass]
    else [Pass, Pass, Issue(id), Pass, Pass]
  }

  /** Refused with a slot in hand: the lease gives it back. */
  lemma GivesBack(st: State, t: ThreadId, sh: Shared)
    requires t in st.threads && 0 <= sh.active && st.sh == Holding(sh)
    requires st.threads[t].Challenge? || st.threads[t].Throttle? || st.threads[t].Provision?
    ensures PlaysTo(st, t, [Fail, Pass], Answered, sh)
  {
    var refused := Step(st, t, Fail);
    PlayOne(refused, t, Pass, [], Answered, sh, Answered, sh);
    PlayOne(st, t, Fail, [Pass] + [], GiveBack, st.sh, Answered, sh);
    assert [Fail] + ([Pass] + []) == [Fail, Pass];
  }

  lemma Provisions(st: State, t: ThreadId, d: DeviceId, id: SessionId, sh: Shared)
    requires t in st.threads && st.threads[t] == Provision(d) && id !in st.h.creator && st.sh == Holding(sh)
    ensures PlaysTo(st, t, [Issue(id), Pass, Pass], Answered, Opened(sh, d, id, st.now + st.ttl))
  {
    var booted := Step(st, t, Issue(id));
    var inserted := Step(booted, t, Pass);
    var end := Opened(sh, d, id, st.now + st.ttl);
    PlayOne(inserted, t, Pass, [], Answered, end, Answered, end);
    PlayOne(booted, t, Pass, [Pass] + [], Register(d, id), inserted.sh, Answered, end);
    PlayOne(st, t, Issue(id), [Pass] + ([Pass] + []), Insert(d, id, st.now + st.ttl), booted.sh, Answered, end);
    assert [Issue(id)] + ([Pass] + ([Pass] + [])) == [Issue(id), Pass, Pass];
  }

  /** What is answered behind the slot. */
  function Answer(sh: Shared, opens: bool, d: DeviceId, id: SessionId, expires: int): Shared {
    if opens then Opened(sh, d, id, expires) else sh
  }

  lemma LayersAlone(st: State, t: ThreadId, d: DeviceId, id: SessionId, sh: Shared,
                    challenged: bool, admitted: bool, provisioned: bool)
    requires t in st.threads && st.threads[t] == Challenge(d) && id !in st.h.creator
    requires 0 <= sh.active && st.sh == Holding(sh)
    ensures PlaysTo(st, t, Layers(challenged, admitted, provisioned, id), Answered,
                    Answer(sh, challenged && admitted && provisioned, d, id, st.now + st.ttl))
  {
    if !challenged {
      GivesBack(st, t, sh);
    } else {
      var rest := Layers(challenged, admitted, provisioned, id)[1..];
      ThrottledAlone(Step(st, t, Pass), t, d, id, sh, admitted, provisioned);
      PlayOne(st, t, Pass, rest, Throttle(d), st.sh, Answered,
        Answer(sh, admitted && provisioned, d, id, st.now + st.ttl));
      assert [Pass] + rest == Layers(challenged, admitted, provisioned, id);
    }
  }

  lemma ThrottledAlone(st: State, t: ThreadId, d: DeviceId, id: SessionId, sh: Shared, admitted: bool,
                       provisioned: bool)
    requires t in st.threads && st.threads[t] == Throttle(d) && id !in st.h.creator
    requires 0 <= sh.active && st.sh == Holding(sh)
    ensures PlaysTo(st, t, Layers(true, admitted, provisioned, id)[1..], Answered,
                    Answer(sh, admitted && provisioned, d, id, st.now + st.ttl))
  {
    if !admitted {
      GivesBack(st, t, sh);
      assert Layers(true, admitted, provisioned, id)[1..] == [Fail, Pass];
    } else {
      var next, rest := Step(st, t, Pass), if provisioned then [Issue(id), Pass, Pass] else [Fail, Pass];
      if provisioned {
        Provisions(next, t, d, id, sh);
      } else {
        GivesBack(next, t, sh);
      }
      PlayOne(st, t, Pass, rest, Provision(d), st.sh, Answered, Answer(sh, provisioned, d, id, st.now + st.ttl));
      assert [Pass] + rest == Layers(true, admitted, provisioned, id)[1..];
    }
  }

  /** The lock-free loop succeeds at its first attempt. */
  lemma AcquiresAlone(st: State, t: ThreadId, d: DeviceId, rest: seq<Choice>, sh: Shared)
    requires t in st.threads && st.threads[t] == Load(d) && st.sh.active < st.max
    requires PlaysTo(Acquired(st, t, d), t, rest, Answered, sh)
    ensures PlaysTo(st, t, [Pass, Pass] + rest, Answered, sh)
  {
    var seen := Step(st, t, Pass);
    assert Step(seen, t, Pass) == Acquired(st, t, d);
    PlayOne(seen, t, Pass, rest, Challenge(d), Holding(st.sh), Answered, sh);
    PlayOne(st, t, Pass, [Pass] + rest, Cas(d, st.sh.active), st.sh, Answered, sh);
    assert [Pass] + ([Pass] + rest) == [Pass, Pass] + rest;
  }

  function Acquired(st: State, t: ThreadId, d: DeviceId): State {
    Move(st, t, Challenge(d)).(sh := Holding(st.sh))
  }

  /** From its device check to its answer, a create that nobody interrupts makes exactly the change
      that the sequential handler promises: a session opens if and only if the device is free, a
      slot is free, and each of the layers behind it and the backend say yes. */
  lemma UninterruptedCreate(st: State, t: ThreadId, d: DeviceId, id: SessionId,
                            challenged: bool, admitted: bool, provisioned: bool)
    requires t in st.threads && st.threads[t] == CheckDevice(d) && 0 <= st.sh.active && id !in st.h.creator
    ensures d in st.sh.bindings.deviceSessions ==> PlaysTo(st, t, [Pass], Answered, st.sh)
    ensures d !in st.sh.bindings.deviceSessions && st.sh.active >= st.max ==>
      PlaysTo(st, t, [Pass, Pass], Answered, st.sh)
    ensures d !in st.sh.bindings.deviceSessions && st.sh.active < st.max ==>
      PlaysTo(st, t, [Pass] + ([Pass, Pass] + Layers(challenged, admitted, provisioned, id)), Answered,
              if challenged && admitted && provisioned then Opened(st.sh, d, id, st.now + st.ttl) else st.sh)
  {
    var next := Step(st, t, Pass);
    if d in st.sh.bindings.deviceSessions {
      PlayOne(st, t, Pass, [], Answered, st.sh, Answered, st.sh);
      assert [Pass] + [] == [Pass];
    } else if st.sh.active >= st.max {
      PlayOne(next, t, Pass, [], Answered, st.sh, Answered, st.sh);
      PlayOne(st, t, Pass, [Pass] + [], Load(d), st.sh, Answered, st.sh);
      assert [Pass] + ([Pass] + []) == [Pass, Pass];
    } else {
      var end := Answer(st.sh, challenged && admitted && provisioned, d, id, st.now + st.ttl);
      var layers := Layers(challenged, admitted, provisioned, id);
      LayersAlone(Acquired(next, t, d), t, d, id, st.sh, challenged, admitted, provisioned);
      AcquiresAlone(next, t, d, layers, end);
      PlayOne(st, t, Pass, [Pass, Pass] + layers, Load(d), st.sh, Answered, end);
    }
  }

  // ----- the removers

  function Passes(n: nat): seq<Choice> {
    if n == 0 then [] else [Pass] + Passes(n - 1)
  }

  /** Any teardown, to the state that the sequential methods promise. */
  lemma {:induction false} UninterruptedTeardown(st: State, t: ThreadId, prog: seq<Instr>,
                                                 reaper: bool) returns (n: nat)
    requires t in st.threads && st.threads[t] == Tearing(prog, reaper)
    ensures PlaysTo(st, t, Passes(n), if reaper then ReaperIdle else Finished, RunProgram(st.sh, prog))
    decreases Cost(prog)
  {
    var end := if reaper then ReaperIdle else Finished;
    if prog == [] {
      PlayOne(st, t, Pass, Passes(0), end, st.sh, end, st.sh);
      n := 1;
    } else {
      var next, rest := TearStep(st, t, prog, reaper), Rest(st.sh, prog);
      assert ([Clamp(prog[0].id)] + prog[1..])[1..] == prog[1..];
      n := UninterruptedTeardown(next, t, rest, reaper);
      PlayOne(st, t, Pass, Passes(n), Tearing(rest, reaper), next.sh, end, RunProgram(st.sh, prog));
      n := n + 1;
    }
  }

  /** Destroy: an unknown session changes nothing, a known one is torn down. */
  lemma UninterruptedDestroy(st: State, t: ThreadId, id: SessionId) returns (n: nat)
    requires t in st.threads && st.threads[t] == DestroyCall(id)
    ensures PlaysTo(st, t, Passes(n), Finished, AfterDestroy(st.sh, id))
  {
    if id in st.sh.sessions {
      var next := Step(st, t, Pass);
      n := UninterruptedTeardown(next, t, Single(id), false);
      assert (set s | s in [id]) == {id};
      PlayOne(st, t, Pass, Passes(n), Tearing(Single(id), false), next.sh, Finished, AfterDestroy(st.sh, id));
      n := n + 1;
    } else {
      PlayOne(st, t, Pass, Passes(0), Finished, st.sh, Finished, st.sh);
      n := 1;
    }
  }

  function AfterDestroy(sh: Shared, id: SessionId): Shared {
    if id in sh.sessions then RunProgram(sh.(sessions := sh.sessions - {id}), Single(id)) else sh
  }

  /** Attach: an expired session is torn down by the attaching thread, anything else is left as it
      is. */
  lemma UninterruptedAttach(st: State, t: ThreadId, id: SessionId) returns (n: nat)
    requires t in st.threads && st.threads[t] == AttachLookup(id)
    ensures PlaysTo(st, t, Passes(n), Finished,
      if id in st.sh.sessions && st.now > st.sh.sessions[id]
      then RunProgram(st.sh.(sessions := st.sh.sessions - {id}), Single(id)) else st.sh)
  {
    var found := Step(st, t, Pass);
    if id !in st.sh.sessions {
      PlayOne(st, t, Pass, Passes(0), Finished, st.sh, Finished, st.sh);
      n := 1;
    } else {
      var expires := st.sh.sessions[id];
      if st.now > expires {
        n := UninterruptedDestroy(Step(found, t, Pass), t, id);
        PlayOne(found, t, Pass, Passes(n), DestroyCall(id), st.sh, Finished, AfterDestroy(st.sh, id));
        PlayOne(st, t, Pass, Passes(n + 1), AttachCheck(id, expires), st.sh, Finished, AfterDestroy(st.sh, id));
        n := n + 2;
      } else {
        PlayOne(found, t, Pass, Passes(0), Finished, st.sh, Finished, st.sh);
        PlayOne(st, t, Pass, Passes(1), AttachCheck(id, expires), st.sh, Finished, st.sh);
        n := 2;
      }
    }
  }

  /** A tick of the reaper: exactly the sessions past their expiry are torn down, one by one. */
  lemma UninterruptedReap(st: State, t: ThreadId, order: seq<SessionId>) returns (n: nat)
    requires t in st.threads && st.threads[t] == ReaperIdle
    requires Distinct(order) && forall s :: s in order <==> s in st.sh.sessions && st.now > st.sh.sessions[s]
    ensures PlaysTo(st, t, [Pass] + ([Walk(order)] + Passes(n)), ReaperIdle,
      RunProgram(st.sh.(sessions := st.sh.sessions - (set s | s in order)), OneByOne(order)))
  {
    var awake := Step(st, t, Pass);
    var taken := Step(awake, t, Walk(order));
    n := UninterruptedTeardown(taken, t, OneByOne(order), true);
    var end := RunProgram(taken.sh, OneByOne(order));
    PlayOne(awake, t, Walk(order), Passes(n), Tearing(OneByOne(order), true), taken.sh, ReaperIdle, end);
    PlayOne(st, t, Pass, [Walk(order)] + Passes(n), ReaperLock(st.now), st.sh, ReaperIdle, end);
  }

  /** Close, once the reaper has stopped: all sessions are torn down, every callback first. */
  lemma UninterruptedClose(st: State, t: ThreadId, order: seq<SessionId>) returns (n: nat)
    requires t in st.threads && st.threads[t] == CloseCall && forall r <- st.threads :: !IsReaper(st.threads[r])
    requires Distinct(order) && forall s :: s in order <==> s in st.sh.sessions
    ensures PlaysTo(st, t, [Pass] + ([Walk(order)] + Passes(n)), Finished,
      RunProgram(st.sh.(sessions := map[]), CallbacksFirst(order)))
  {
    var waits := Step(st, t, Pass);
    var taken := Step(waits, t, Walk(order));
    assert taken.sh.sessions == map[];
    n := UninterruptedTeardown(taken, t, CallbacksFirst(order), false);
    var end := RunProgram(taken.sh, CallbacksFirst(order));
    PlayOne(waits, t, Walk(order), Passes(n), Tearing(CallbacksFirst(order), false), taken.sh, Finished, end);
    PlayOne(st, t, Pass, [Walk(order)] + Passes(n), AwaitReaper, st.sh, Finished, end);
  }
}

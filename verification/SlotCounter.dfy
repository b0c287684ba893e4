/** The lock-free slot counter under every interleaving of its atomic steps.

    Threads call TryAcquire and Release in any order and number; loads, compare-and-swaps, adds
    and the clamping store are separate steps.  The only thing asked of the callers is that at no
    moment more slots were returned than acquired.
  */
module SlotCounter {
  type ThreadId = nat

  datatype Op = TryAcquire | Release
  datatype Result = Granted | Denied | Freed
  datatype Call = Call(thread: ThreadId, op: Op, result: Result)

  // ----- the sequential bounded counter

  function Next(max: int, value: int, op: Op): int {
    match op
    case TryAcquire => if value < max then value + 1 else value
    case Release => if value > 0 then value - 1 else 0
  }

  function Reply(max: int, value: int, op: Op): Result {
    match op
    case TryAcquire => if value < max then Granted else Denied
    case Release => Freed
  }

  function Value(max: int, calls: seq<Call>, n: nat): int
    requires n <= |calls|
  {
    if n == 0 then 0 else Next(max, Value(max, calls, n - 1), calls[n - 1].op)
  }

  ghost predicate Explained(max: int, calls: seq<Call>, n: nat)
    requires n < |calls|
  {
    calls[n].result == Reply(max, Value(max, calls, n), calls[n].op)
  }

  /** The calls, one after another, get these results from the sequential counter. */
  ghost predicate Sequential(max: int, calls: seq<Call>) {
    forall n: nat | n < |calls| :: Explained(max, calls, n)
  }

  // ----- the threads

  /** What a running TryAcquire has seen: writes of the counter when it started and when it last
      loaded, and its failed attempts. */
  datatype Attempt = Attempt(started: nat, loaded: nat, failures: nat)

  datatype Pc =
    | Idle
    | AtLoad(a: Attempt)
    | AtCas(a: Attempt, seen: int)
    | AtAdd
    | AtClamp(call: Call)
    | Returning(call: Call)

  datatype State = State(
    max: int, active: int, threads: map<ThreadId, Pc>,
    granted: nat, freed: nat,
    writes: nat,              // changes of the counter so far
    effects: seq<Call>,       // calls in the order in which they took effect
    replies: seq<Call>)       // calls in the order in which they returned

  datatype Action = Invoke(t: ThreadId, op: Op) | Go(t: ThreadId)

  predicate Enabled(st: State, a: Action) {
    match a
    case Invoke(t, _) => t in st.threads ==> st.threads[t].Idle?
    case Go(t) => t in st.threads && !st.threads[t].Idle? && (st.threads[t].AtAdd? ==> st.freed < st.granted)
  }

  function Took(st: State, t: ThreadId, op: Op, r: Result): State {
    var call := Call(t, op, r);
    st.(threads := st.threads[t := Returning(call)], effects := st.effects + [call])
  }

  function Step(st: State, a: Action): State
    requires Enabled(st, a)
  {
    match a
    case Invoke(t, op) =>
      st.(threads := st.threads[t := if op.TryAcquire? then AtLoad(Attempt(st.writes, st.writes, 0)) else AtAdd])
    case Go(t) =>
      match st.threads[t]
      case AtLoad(w) =>
        if st.active >= st.max then Took(st, t, TryAcquire, Denied)
        else st.(threads := st.threads[t := AtCas(w.(loaded := st.writes), st.active)])
      case AtCas(w, seen) =>
        if st.active == seen then
          Took(st, t, TryAcquire, Granted).(active := seen + 1, writes := st.writes + 1, granted := st.granted + 1)
        else st.(threads := st.threads[t := AtLoad(w.(failures := w.failures + 1))])
      case AtAdd =>
        var took := Took(st, t, Release, Freed).(
          active := st.active - 1, writes := st.writes + 1, freed := st.freed + 1);
        if st.active - 1 < 0 then took.(threads := took.threads[t := AtClamp(Call(t, Release, Freed))]) else took
      case AtClamp(call) =>
        st.(threads := st.threads[t := Returning(call)], active := 0, writes := st.writes + 1)
      case Returning(call) =>
        st.(threads := st.threads[t := Idle], replies := st.replies + [call])
  }

  ghost predicate Initial(st: State) {
    st.max > 0 && st == State(st.max, 0, map[], 0, 0, 0, [], [])
  }

  ghost predicate StepAt(run: seq<State>, i: nat)
    requires i + 1 < |run|
  {
    exists a :: Enabled(run[i], a) && run[i + 1] == Step(run[i], a)
  }

  ghost predicate IsRun(run: seq<State>) {
    run != [] && Initial(run[0]) && forall i: nat | i + 1 < |run| :: StepAt(run, i)
  }

  // ----- the invariant

  function Of(calls: seq<Call>, t: ThreadId): seq<Call> {
    if calls == [] then []
    else
      var n := |calls| - 1;
      Of(calls[..n], t) + if calls[n].thread == t then [calls[n]] else []
  }

  function Unreturned(threads: map<ThreadId, Pc>, t: ThreadId): seq<Call> {
    if t in threads && threads[t].Returning? then [threads[t].call] else []
  }

  ghost predicate PcOk(st: State, t: ThreadId, pc: Pc) {
    match pc
    case AtLoad(w) => w.started + w.failures <= st.writes
    case AtCas(w, seen) =>
      && seen < st.max && w.started + w.failures <= w.loaded <= st.writes
      && (w.loaded == st.writes ==> st.active == seen)
    case AtClamp(_) => false
    case Returning(call) => call.thread == t
    case _ => true
  }

  ghost predicate Counts(st: State) {
    && 0 <= st.active == st.granted - st.freed <= st.max && 0 < st.max
    && Value(st.max, st.effects, |st.effects|) == st.active
    && Sequential(st.max, st.effects)
  }

  ghost predicate ThreadsOk(st: State) {
    forall t <- st.threads :: PcOk(st, t, st.threads[t])
  }

  ghost predicate RepliesMatch(st: State, t: ThreadId) {
    Of(st.effects, t) == Of(st.replies, t) + Unreturned(st.threads, t)
  }

  ghost predicate Invariant(st: State) {
    Counts(st) && ThreadsOk(st) && forall t :: RepliesMatch(st, t)
  }

  lemma {:induction false} ValueOfPrefix(max: int, calls: seq<Call>, more: seq<Call>, n: nat)
    requires n <= |calls|
    ensures Value(max, calls + more, n) == Value(max, calls, n)
  {
    if n > 0 {
      ValueOfPrefix(max, calls, more, n - 1);
    }
  }

  /** Appending a call with the right reply. */
  lemma Appended(max: int, calls: seq<Call>, call: Call)
    requires Sequential(max, calls) && call.result == Reply(max, Value(max, calls, |calls|), call.op)
    ensures Sequential(max, calls + [call])
    ensures Value(max, calls + [call], |calls| + 1) == Next(max, Value(max, calls, |calls|), call.op)
  {
    forall n: nat | n < |calls + [call]| ensures Explained(max, calls + [call], n) {
      ValueOfPrefix(max, calls, [call], n);
      assert n < |calls| ==> Explained(max, calls, n);
    }
    ValueOfPrefix(max, calls, [call], |calls|);
  }

  lemma CountsKept(st: State, a: Action)
    requires Counts(st) && ThreadsOk(st) && Enabled(st, a)
    ensures Counts(Step(st, a))
  {
    if a.Go? {
      assert PcOk(st, a.t, st.threads[a.t]);
      var pc := st.threads[a.t];
      if pc.AtLoad? && st.active >= st.max {
        Appended(st.max, st.effects, Call(a.t, TryAcquire, Denied));
      } else if pc.AtCas? && st.active == pc.seen {
        Appended(st.max, st.effects, Call(a.t, TryAcquire, Granted));
      } else if pc.AtAdd? {
        Appended(st.max, st.effects, Call(a.t, Release, Freed));
      }
    }
  }

  lemma ThreadsKept(st: State, a: Action)
    requires Counts(st) && ThreadsOk(st) && Enabled(st, a)
    ensures ThreadsOk(Step(st, a))
  {
    var st' := Step(st, a);
    forall u | u in st'.threads ensures PcOk(st', u, st'.threads[u]) {
      assert u in st.threads ==> PcOk(st, u, st.threads[u]);
      assert a.t in st.threads ==> PcOk(st, a.t, st.threads[a.t]);
    }
  }

  lemma OfAppended(calls: seq<Call>, call: Call, t: ThreadId)
    ensures Of(calls + [call], t) == Of(calls, t) + if call.thread == t then [call] else []
  {
    assert (calls + [call])[..|calls|] == calls;
  }

  lemma TookReplies(st: State, t: ThreadId, op: Op, r: Result, u: ThreadId)
    requires RepliesMatch(st, u) && Unreturned(st.threads, t) == []
    ensures RepliesMatch(Took(st, t, op, r), u)
  {
    OfAppended(st.effects, Call(t, op, r), u);
  }

  lemma ReturnReplies(st: State, t: ThreadId, u: ThreadId)
    requires RepliesMatch(st, u) && t in st.threads && st.threads[t].Returning? && st.threads[t].call.thread == t
    ensures RepliesMatch(Step(st, Go(t)), u)
  {
    OfAppended(st.replies, st.threads[t].call, u);
  }

  lemma RepliesKept(st: State, a: Action, t: ThreadId)
    requires Counts(st) && ThreadsOk(st) && Enabled(st, a) && RepliesMatch(st, t)
    ensures RepliesMatch(Step(st, a), t)
  {
    if a.Go? {
      var pc := st.threads[a.t];
      assert PcOk(st, a.t, pc);
      if pc.Returning? {
        ReturnReplies(st, a.t, t);
      } else if pc.AtAdd? {
        TookReplies(st, a.t, Release, Freed, t);
      } else {
        TookReplies(st, a.t, TryAcquire, if pc.AtLoad? then Denied else Granted, t);
      }
    }
  }

  lemma {:induction false} RunInvariant(run: seq<State>, n: nat)
    requires IsRun(run) && n < |run|
    ensures Invariant(run[n])
  {
    if n > 0 {
      RunInvariant(run, n - 1);
      assert StepAt(run, n - 1);
      var a :| Enabled(run[n - 1], a) && run[n] == Step(run[n - 1], a);
      CountsKept(run[n - 1], a);
      ThreadsKept(run[n - 1], a);
      forall t ensures RepliesMatch(run[n], t) {
        RepliesKept(run[n - 1], a, t);
      }
    }
  }

  /** Every run is linearizable: the calls, in the order of their effects (a grant at its
      compare-and-swap, a denial at its load, a release at its add), are a run of the sequential
      bounded counter that ends in the value of the counter, and every thread has received
      exactly the results of its own calls in that order, save the one it is about to return.
      The counter stays in its range and the clamping store is never reached. */
  lemma Linearizable(run: seq<State>, n: nat)
    requires IsRun(run) && n < |run|
    ensures var st := run[n];
      && Sequential(st.max, st.effects) && Value(st.max, st.effects, |st.effects|) == st.active
      && (forall t :: Of(st.effects, t) == Of(st.replies, t) + Unreturned(st.threads, t))
      && 0 <= st.active == st.granted - st.freed <= st.max
      && (forall t <- st.threads :: !st.threads[t].AtClamp?)
  {
    RunInvariant(run, n);
    var st := run[n];
    forall t ensures Of(st.effects, t) == Of(st.replies, t) + Unreturned(st.threads, t) {
      assert RepliesMatch(st, t);
    }
    forall t | t in st.threads ensures !st.threads[t].AtClamp? {
      assert PcOk(st, t, st.threads[t]);
    }
  }

  function CountOf(calls: seq<Call>, r: Result): nat {
    if calls == [] then 0
    else CountOf(calls[..|calls| - 1], r) + if calls[|calls| - 1].result == r then 1 else 0
  }

  /** A TryAcquire is denied exactly when all slots are out, granted exactly when one is left: slots
      out are those granted and not yet freed. */
  ghost predicate FairAt(max: int, calls: seq<Call>, n: nat)
    requires n < |calls|
  {
    var out := CountOf(calls[..n], Granted) - CountOf(calls[..n], Freed);
    && (calls[n].op.TryAcquire? ==> calls[n].result == if out == max then Denied else Granted)
    && (calls[n].op.Release? ==> calls[n].result == Freed && out >= 1)
    && 0 <= out <= max
  }

  lemma {:induction false} ValueCounts(max: int, calls: seq<Call>, n: nat)
    requires n <= |calls| && 0 < max && Sequential(max, calls)
    requires forall m: nat | m < n && calls[m].op.Release? :: Value(max, calls, m) > 0
    ensures Value(max, calls, n) == CountOf(calls[..n], Granted) - CountOf(calls[..n], Freed)
    ensures 0 <= Value(max, calls, n) <= max
  {
    if n > 0 {
      ValueCounts(max, calls, n - 1);
      assert Explained(max, calls, n - 1);
      assert calls[..n][..n - 1] == calls[..n - 1];
    }
  }

  /** No release ever finds the counter at zero. */
  ghost predicate NoneAtZero(st: State) {
    forall m: nat | m < |st.effects| && st.effects[m].op.Release? :: Value(st.max, st.effects, m) > 0
  }

  lemma StepNoneAtZero(st: State, a: Action)
    requires Counts(st) && ThreadsOk(st) && NoneAtZero(st) && Enabled(st, a)
    ensures NoneAtZero(Step(st, a))
  {
    var st' := Step(st, a);
    if a.Go? {
      assert PcOk(st, a.t, st.threads[a.t]);
    }
    forall m: nat | m < |st'.effects| && st'.effects[m].op.Release? ensures Value(st'.max, st'.effects, m) > 0 {
      assert st'.effects == st.effects + st'.effects[|st.effects|..];
      ValueOfPrefix(st.max, st.effects, st'.effects[|st.effects|..], if m < |st.effects| then m else |st.effects|);
    }
  }

  lemma {:induction false} RunNoneAtZero(run: seq<State>, n: nat)
    requires IsRun(run) && n < |run|
    ensures NoneAtZero(run[n])
  {
    if n > 0 {
      RunNoneAtZero(run, n - 1);
      RunInvariant(run, n - 1);
      assert StepAt(run, n - 1);
      var a :| Enabled(run[n - 1], a) && run[n] == Step(run[n - 1], a);
      StepNoneAtZero(run[n - 1], a);
    }
  }

  /** In every interleaving, in the order of the effects, a TryAcquire is granted if and only if a
      slot is left at that point. */
  lemma DeniedExactlyWhenFull(run: seq<State>, m: nat, n: nat)
    requires IsRun(run) && n < |run| && m < |run[n].effects|
    ensures FairAt(run[n].max, run[n].effects, m)
  {
    RunInvariant(run, n);
    RunNoneAtZero(run, n);
    ValueCounts(run[n].max, run[n].effects, m);
    assert Explained(run[n].max, run[n].effects, m);
  }

  /** Lock-freedom: a running TryAcquire has failed at most as often as the counter was written
      since its call; it writes the counter itself only in the step that ends the call, so all
      those writes are other threads' successes. */
  lemma FailuresPaidByOthers(run: seq<State>, n: nat, t: ThreadId)
    requires IsRun(run) && n < |run| && t in run[n].threads
    ensures var pc := run[n].threads[t];
      pc.AtLoad? || pc.AtCas? ==> pc.a.failures <= run[n].writes - pc.a.started
    ensures var pc := run[n].threads[t];
      pc.AtCas? && run[n].writes == pc.a.loaded ==> Step(run[n], Go(t)).threads[t].Returning?
  {
    RunInvariant(run, n);
    assert PcOk(run[n], t, run[n].threads[t]);
  }

  // ----- real-time order

  lemma {:induction false} EffectsOnlyAppend(run: seq<State>, m: nat, n: nat)
    requires IsRun(run) && m <= n < |run|
    ensures run[m].effects <= run[n].effects
  {
    if m < n {
      EffectsOnlyAppend(run, m, n - 1);
      assert StepAt(run, n - 1);
      var a :| Enabled(run[n - 1], a) && run[n] == Step(run[n - 1], a);
      assert run[n - 1].effects <= run[n].effects;
    }
  }

  /** Where the `q`-th call of `t`, counted from zero, stands. */
  function Position(calls: seq<Call>, t: ThreadId, q: nat): (i: nat)
    requires q < |Of(calls, t)|
    ensures i < |calls| && calls[i] == Of(calls, t)[q]
  {
    var n := |calls| - 1;
    if q < |Of(calls[..n], t)| then Position(calls[..n], t, q) else n
  }

  lemma {:induction false} PositionInPrefix(prefix: seq<Call>, calls: seq<Call>, t: ThreadId, q: nat)
    requires prefix <= calls
    ensures Of(prefix, t) <= Of(calls, t)
    ensures q < |Of(calls, t)| ==> (q < |Of(prefix, t)| <==> Position(calls, t, q) < |prefix|)
    decreases |calls|
  {
    if prefix != calls {
      var n := |calls| - 1;
      assert prefix <= calls[..n];
      PositionInPrefix(prefix, calls[..n], t, q);
    }
  }

  /** Calls that `t` has made so far. */
  function Invoked(st: State, t: ThreadId): nat {
    |Of(st.replies, t)| + if t in st.threads && !st.threads[t].Idle? then 1 else 0
  }

  /** A call that returned before another one was made also took effect before it: the order of
      the effects respects real time.  Call `q` of `t` had returned at moment `m`, call `p` of
      `u` had not been made. */
  lemma RealTimeOrder(run: seq<State>, m: nat, n: nat, t: ThreadId, q: nat, u: ThreadId, p: nat)
    requires IsRun(run) && m <= n < |run|
    requires q < |Of(run[m].replies, t)| && Invoked(run[m], u) <= p < |Of(run[n].effects, u)|
    ensures q < |Of(run[n].effects, t)| && Of(run[n].effects, t)[q] == Of(run[m].replies, t)[q]
    ensures Position(run[n].effects, t, q) < |run[m].effects| <= Position(run[n].effects, u, p)
  {
    RunInvariant(run, m);
    assert RepliesMatch(run[m], t) && RepliesMatch(run[m], u);
    EffectsOnlyAppend(run, m, n);
    PositionInPrefix(run[m].effects, run[n].effects, t, q);
    PositionInPrefix(run[m].effects, run[n].effects, u, p);
  }
}

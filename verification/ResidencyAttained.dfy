/** The bound on residency by the size of the previous reap is attained: the reaper is sequential, and
    it does not look while it destroys. */
module ResidencyAttained {
  import opened Bindings
  import opened Registry
  import opened Residency

  ghost predicate Reachable(st: State) {
    exists run :: IsRun(run) && run[|run| - 1] == st
  }

  lemma Do(st: State, a: Action) returns (st': State)
    requires Reachable(st) && Enabled(st, a)
    ensures Reachable(st') && st' == Next(st, a)
  {
    st' := Next(st, a);
    var run :| IsRun(run) && run[|run| - 1] == st;
    var longer := run + [st'];
    forall i: nat | i + 1 < |longer| ensures StepAt(longer, i) {
      if i + 1 < |run| {
        assert StepAt(run, i) && longer[i] == run[i] && longer[i + 1] == run[i + 1];
      } else {
        assert Enabled(longer[i], a) && longer[i + 1] == Next(longer[i], a);
      }
    }
    assert IsRun(longer);
  }

  function StartUp(max: int, ttl: nat): State {
    State(max, ttl, 0, map[], TICK, false, Waiting, 0, 0)
  }

  function Id(n: nat): (id: SessionId)
    ensures |id| == n
  {
    seq(n, _ => 'x')
  }

  /** `m` sessions, all created at start-up. */
  function Crowd(m: nat): map<SessionId, int> {
    if m == 0 then map[] else Crowd(m - 1)[Id(m) := 0]
  }

  lemma CrowdGrows(crowd: map<SessionId, int>, m: nat)
    requires m > 0 && |crowd| == m - 1 && forall s <- crowd :: 1 <= |s| <= m - 1 && crowd[s] == 0
    ensures |crowd[Id(m) := 0]| == m && forall s <- crowd[Id(m) := 0] :: 1 <= |s| <= m && crowd[Id(m) := 0][s] == 0
  {
    assert crowd[Id(m) := 0].Keys == crowd.Keys + {Id(m)};
    assert |crowd[Id(m) := 0]| == |crowd[Id(m) := 0].Keys| && |crowd| == |crowd.Keys|;
  }

  lemma {:induction false} CrowdSize(m: nat)
    ensures |Crowd(m)| == m && forall s <- Crowd(m) :: 1 <= |s| <= m && Crowd(m)[s] == 0
  {
    if m > 0 {
      CrowdSize(m - 1);
      CrowdGrows(Crowd(m - 1), m);
    }
  }

  lemma {:induction false} Crowded(max: int, ttl: nat, m: nat) returns (st: State)
    requires m < max
    ensures Reachable(st) && st == StartUp(max, ttl).(created := Crowd(m))
  {
    CrowdSize(m);
    if m == 0 {
      st := StartUp(max, ttl);
      assert IsRun([st]);
    } else {
      st := Crowded(max, ttl, m - 1);
      CrowdSize(m - 1);
      st := Do(st, Insert(Id(m)));
    }
  }

  /** The first tick takes the crowd, and the session that expires at that very instant stays. */
  lemma FirstTick(max: int, ttl: nat, m: nat) returns (st: State)
    requires 1 <= m < max && 0 < ttl < TICK
    ensures Reachable(st)
    ensures st == State(max, ttl, TICK, map[Id(0) := TICK - ttl], 2 * TICK, false, Destroying(m, TICK + LIMIT), TICK, m)
  {
    CrowdSize(m);
    st := Crowded(max, ttl, m);
    st := Do(st, Elapse(TICK - ttl));
    st := Do(st, Insert(Id(0)));
    st := Do(st, Elapse(ttl));
    st := Do(st, Fire);
    assert Expired(Expiries(st), st.now) == Crowd(m).Keys;
    assert |Crowd(m).Keys| == m;
    st := Do(st, Reap);
    assert st.created == map[Id(0) := TICK - ttl];
  }

  /** `done` sandboxes later. */
  lemma {:induction false} Later(max: int, ttl: nat, m: nat, done: nat) returns (st: State)
    requires 1 <= m < max && 0 < ttl < TICK && done < m
    ensures Reachable(st)
    ensures var now := TICK + done * TICK;
      st == State(max, ttl, now, map[Id(0) := TICK - ttl], now + TICK, done > 0, Destroying(m - done, now + LIMIT),
                  TICK, m)
  {
    if done == 0 {
      st := FirstTick(max, ttl, m);
    } else {
      st := Later(max, ttl, m, done - 1);
      st := Do(st, Elapse(TICK));
      st := Do(st, Fire);
      st := Do(st, Destroyed);
    }
  }

  /** Whatever the size of a reap, some session stays in the registry exactly ten seconds longer than
      its lifetime for each session of that reap. */
  lemma ResidencyReached(max: int, ttl: nat, m: nat) returns (st: State, id: SessionId)
    requires 1 <= m < max && 0 < ttl < 10 * SECOND
    ensures Reachable(st) && st.max == max && st.ttl == ttl && st.batch == m && id in st.created
    ensures st.now == st.created[id] + ttl + 10 * SECOND * m
  {
    id := Id(0);
    st := Later(max, ttl, m, m - 1);
    st := Do(st, Elapse(TICK));
  }
}

/** Forgetting idle buckets is invisible exactly when an hour fills every bucket. */
module LimiterEviction {
  import opened Limiter
  import opened LimiterWindow

  ghost predicate Agree<K(!new)>(cfg: Config, es: seq<Event<K>>, n: nat, g: Gauge<K>, now: int)
    requires n <= |es|
  {
    g.Level(cfg, At(cfg, true, es, n), now) == g.Level(cfg, At(cfg, false, es, n), now)
  }

  lemma StepAgrees<K(!new)>(cfg: Config, es: seq<Event<K>>, n: nat, g: Gauge<K>)
    requires cfg.Valid() && Monotone(es) && HourFills(cfg) && n < |es| && Agree(cfg, es, n, g, es[n].now)
    requires es[n].Allow? ==> Agree(cfg, es, n, PairOf(es[n]), es[n].now) && Agree(cfg, es, n, IpOf(es[n]), es[n].now)
    ensures Agree(cfg, es, n + 1, g, es[n].now)
  {
    RunStep(cfg, true, es, n, g);
    RunStep(cfg, false, es, n, g);
  }

  lemma AgreeLater<K(!new)>(cfg: Config, es: seq<Event<K>>, n: nat, g: Gauge<K>, t: int, now: int)
    requires cfg.Valid() && Monotone(es) && n <= |es| && (n > 0 ==> es[n - 1].now <= t) && t <= now
    requires Agree(cfg, es, n, g, t)
    ensures Agree(cfg, es, n, g, now)
  {
    RunGains(cfg, true, es, n, g, t, now);
    RunGains(cfg, false, es, n, g, t, now);
  }

  /** The simulation: a forgotten bucket is one that would be full by now. */
  lemma {:induction false} LevelsAgree<K(!new)>(cfg: Config, es: seq<Event<K>>, n: nat, g: Gauge<K>, now: int)
    requires cfg.Valid() && Monotone(es) && HourFills(cfg) && n <= |es| && (n > 0 ==> es[n - 1].now <= now)
    ensures Agree(cfg, es, n, g, now)
  {
    if n == 0 {
      NothingForgotten(cfg, es, g, now);
    } else {
      var e := es[n - 1];
      LevelsAgree(cfg, es, n - 1, g, e.now);
      if e.Allow? {
        LevelsAgree(cfg, es, n - 1, PairOf(e), e.now);
        LevelsAgree(cfg, es, n - 1, IpOf(e), e.now);
      }
      StepAgrees(cfg, es, n - 1, g);
      AgreeLater(cfg, es, n, g, e.now, now);
    }
  }

  lemma NothingForgotten<K(!new)>(cfg: Config, es: seq<Event<K>>, g: Gauge<K>, now: int)
    ensures Agree(cfg, es, 0, g, now)
  {
  }

  ghost predicate SameAnswer<K(!new)>(cfg: Config, es: seq<Event<K>>, n: nat)
    requires n < |es|
  {
    es[n].Allow? ==> AnswerAt(cfg, true, es, n) == AnswerAt(cfg, false, es, n)
  }

  /** On every run, every request gets the answer of a limiter that never forgets a bucket. */
  ghost predicate EvictionInvisible(cfg: Config) {
    forall es: seq<Event<string>>, n: nat | Monotone(es) && n < |es| :: SameAnswer(cfg, es, n)
  }

  lemma AnswersAgree<K(!new)>(cfg: Config, es: seq<Event<K>>, n: nat)
    requires cfg.Valid() && Monotone(es) && HourFills(cfg) && n < |es|
    ensures SameAnswer(cfg, es, n)
  {
    var e := es[n];
    if e.Allow? {
      LevelsAgree(cfg, es, n, PairOf(e), e.now);
      LevelsAgree(cfg, es, n, IpOf(e), e.now);
      RunAnswer(cfg, true, es, n);
      RunAnswer(cfg, false, es, n);
    }
  }

  // ----- the other direction

  function Burst(cfg: Config, now: int): seq<Event<string>> {
    seq(cfg.burst, _ => Allow("pair", "ip", now, true))
  }

  /** A burst, a sweep as soon as the entries are stale, and the burst again. */
  function ForgetfulRun(cfg: Config): seq<Event<string>> {
    Burst(cfg, 0) + [Sweep(HOUR + 1)] + Burst(cfg, HOUR + 1)
  }

  lemma FirstBurst(cfg: Config)
    requires cfg.Valid()
    ensures var es := ForgetfulRun(cfg);
      && (forall n: nat | n < cfg.burst :: CountsOn(cfg, true, es, PairGauge("pair"), n))
      && At(cfg, true, es, cfg.burst + 1) == State(map[], map[])
  {
    var es, e := ForgetfulRun(cfg), Allow("pair", "ip", 0, true);
    assert Repeats(es, 0, cfg.burst, e);
    FullBurst(cfg, true, es, 0, e);
    TouchedAtZero(cfg, cfg.burst);
    assert es[cfg.burst] == Sweep(HOUR + 1);
    var s := At(cfg, true, es, cfg.burst);
    assert Swept(s.pairs, HOUR + 1) == map[] && Swept(s.ips, HOUR + 1) == map[];
  }

  lemma {:induction false} TouchedAtZero(cfg: Config, n: nat)
    requires n <= cfg.burst
    ensures AllSeenAtZero(At(cfg, true, ForgetfulRun(cfg), n))
  {
    if n > 0 {
      TouchedAtZero(cfg, n - 1);
      TouchSeen(cfg, At(cfg, true, ForgetfulRun(cfg), n - 1), Allow("pair", "ip", 0, true));
      assert ForgetfulRun(cfg)[n - 1] == Allow("pair", "ip", 0, true);
    }
  }

  ghost predicate AllSeenAtZero(s: State<string>) {
    (forall k <- s.pairs :: s.pairs[k].seen == 0) && (forall k <- s.ips :: s.ips[k].seen == 0)
  }

  lemma TouchSeen(cfg: Config, s: State<string>, e: Event<string>)
    requires AllSeenAtZero(s) && e.Allow? && e.now == 0
    ensures AllSeenAtZero(Next(cfg, true, s, e))
  {
  }

  lemma HourTooShort(cfg: Config)
    requires cfg.Valid() && !HourFills(cfg)
    ensures (HOUR + 1) / cfg.refill < cfg.burst
  {
    var q := (HOUR + 1) / cfg.refill;
    assert q * cfg.refill <= HOUR + 1 < cfg.burst * cfg.refill;
  }

  lemma BothBurstsAdmitted(cfg: Config, n: nat)
    requires cfg.Valid() && n < |ForgetfulRun(cfg)| && n != cfg.burst
    ensures CountsOn(cfg, true, ForgetfulRun(cfg), PairGauge("pair"), n)
  {
    var es, e, b := ForgetfulRun(cfg), Allow("pair", "ip", HOUR + 1, true), cfg.burst;
    FirstBurst(cfg);
    assert Repeats(es, b + 1, b, e);
    FullBurst(cfg, true, es, b + 1, e);
  }

  /** The forgetting limiter admits both bursts; the other one cannot, by the window bound. */
  lemma ForgettingShows(cfg: Config)
    requires cfg.Valid() && !HourFills(cfg)
    ensures !EvictionInvisible(cfg)
  {
    var es, b := ForgetfulRun(cfg), cfg.burst;
    WindowBound(cfg, false, es, 0, |es|, "pair", "ip");
    HourTooShort(cfg);
    var n := SomeNotCounted(cfg, false, es, PairGauge("pair"), b);
    BothBurstsAdmitted(cfg, n);
    assert PairGauge("pair").UsedBy(es[n]) && !SameAnswer(cfg, es, n);
  }

  /** Sweeps can be seen by some client in some run if and only if filling a pair bucket takes
      longer than an hour and a nanosecond. */
  lemma EvictionInvisibleExactly(cfg: Config)
    requires cfg.Valid()
    ensures EvictionInvisible(cfg) <==> cfg.burst * cfg.refill <= HOUR + 1
  {
    if HourFills(cfg) {
      forall es: seq<Event<string>>, n: nat | Monotone(es) && n < |es| ensures SameAnswer(cfg, es, n) {
        AnswersAgree(cfg, es, n);
      }
    } else {
      ForgettingShows(cfg);
    }
  }
}

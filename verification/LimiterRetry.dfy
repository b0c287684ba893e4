/** A refused client that waits as long as it was told. */
module LimiterRetry {
  import opened Limiter

  function Delay(v: Verdict): int {
    match v case Admitted => 0 case PairRefused(d) => d case IpRefused(d) => d
  }

  predicate SameClient<K(==)>(e: Event<K>, f: Event<K>) {
    e.Allow? && f.Allow? && e.pair == f.pair && e.ip == f.ip
  }

  ghost predicate Quiet<K(!new)>(es: seq<Event<K>>, g: Gauge<K>, i: nat, j: nat) {
    i <= j <= |es| && forall n | i <= n < j :: !g.UsedBy(es[n])
  }

  /** Request `j` is the next one of the client of request `i`, and neither its pair nor its IP
      is used in between.  Sweeps may run at any time. */
  ghost predicate Returns<K(!new)>(es: seq<Event<K>>, i: nat, j: nat) {
    && i < j < |es| && SameClient(es[i], es[j])
    && Quiet(es, PairOf(es[i]), i + 1, j) && Quiet(es, IpOf(es[i]), i + 1, j)
  }

  /** ... and it comes no sooner than `i` was told. */
  ghost predicate Waits<K(!new)>(cfg: Config, forgets: bool, es: seq<Event<K>>, i: nat, j: nat) {
    Returns(es, i, j) && es[j].now >= es[i].now + Delay(AnswerAt(cfg, forgets, es, i))
  }

  /** An event that does not use a gauge leaves its level alone; a sweep can only raise it, and
      raises nothing when an hour fills a bucket. */
  lemma UnusedLevel<K(!new)>(cfg: Config, forgets: bool, es: seq<Event<K>>, n: nat, g: Gauge<K>)
    requires cfg.Valid() && Monotone(es) && n < |es| && !g.UsedBy(es[n])
    ensures var before := g.Level(cfg, At(cfg, forgets, es, n), es[n].now);
      var after := g.Level(cfg, At(cfg, forgets, es, n + 1), es[n].now);
      after >= before && ((forgets && es[n].Sweep? ==> HourFills(cfg)) ==> after == before)
  {
    var e, s := es[n], At(cfg, forgets, es, n);
    if e.Allow? || !forgets || HourFills(cfg) {
      RunStep(cfg, forgets, es, n, g);
    } else {
      RunGains(cfg, forgets, es, n, g, e.now, e.now);
      if g.Has(s) && !g.Has(At(cfg, forgets, es, n + 1)) {
        assert g.Level(cfg, At(cfg, forgets, es, n + 1), e.now) == g.Cap(cfg);
      }
    }
  }

  /** No sweep among events i..j-1 forgets a bucket that is not full. */
  ghost predicate Harmless<K(!new)>(cfg: Config, forgets: bool, es: seq<Event<K>>, i: nat, j: nat) {
    i <= j <= |es| && forall n | i <= n < j :: forgets && es[n].Sweep? ==> HourFills(cfg)
  }

  function Waited(cap: int, level: int, time: int): int {
    Min(cap, level + time)
  }

  /** `level` is what `time` without use makes of `start`, or more, and not more if `exactly`. */
  predicate Gained(cap: int, start: int, time: int, level: int, exactly: bool) {
    level >= Waited(cap, start, time) && (exactly ==> level == Waited(cap, start, time))
  }

  lemma GainedOn(cap: int, start: int, a: int, b: int, was: int, level: int, exactly: bool)
    requires a >= 0 && b >= 0 && Gained(cap, start, a, was, exactly) && Gained(cap, was, b, level, exactly)
    ensures Gained(cap, start, a + b, level, exactly)
  {
  }

  ghost predicate GainedBy<K(!new)>(cfg: Config, forgets: bool, es: seq<Event<K>>, g: Gauge<K>, i: nat, j: nat,
                                    now: int)
    requires i < j <= |es|
  {
    Gained(g.Cap(cfg), g.Level(cfg, At(cfg, forgets, es, i + 1), es[i].now), now - es[i].now,
           g.Level(cfg, At(cfg, forgets, es, j), now), Harmless(cfg, forgets, es, i + 1, j))
  }

  /** Event `j` and the wait before it. */
  lemma GainsOnce<K(!new)>(cfg: Config, forgets: bool, es: seq<Event<K>>, g: Gauge<K>, j: nat)
    requires cfg.Valid() && Monotone(es) && 0 < j < |es| && !g.UsedBy(es[j])
    ensures Gained(g.Cap(cfg), g.Level(cfg, At(cfg, forgets, es, j), es[j - 1].now), es[j].now - es[j - 1].now,
                   g.Level(cfg, At(cfg, forgets, es, j + 1), es[j].now), forgets && es[j].Sweep? ==> HourFills(cfg))
  {
    RunGains(cfg, forgets, es, j, g, es[j - 1].now, es[j].now);
    UnusedLevel(cfg, forgets, es, j, g);
  }

  lemma GainsOn<K(!new)>(cfg: Config, forgets: bool, es: seq<Event<K>>, g: Gauge<K>, i: nat, j: nat)
    requires cfg.Valid() && Monotone(es) && i < j < |es| && !g.UsedBy(es[j])
    requires GainedBy(cfg, forgets, es, g, i, j, es[j - 1].now)
    ensures GainedBy(cfg, forgets, es, g, i, j + 1, es[j].now)
  {
    assert es[i].now <= es[j - 1].now <= es[j].now;
    GainsOnce(cfg, forgets, es, g, j);
    GainedOn(g.Cap(cfg), g.Level(cfg, At(cfg, forgets, es, i + 1), es[i].now), es[j - 1].now - es[i].now,
      es[j].now - es[j - 1].now,
      g.Level(cfg, At(cfg, forgets, es, j), es[j - 1].now), g.Level(cfg, At(cfg, forgets, es, j + 1), es[j].now),
      Harmless(cfg, forgets, es, i + 1, j + 1));
  }

  lemma {:induction false} QuietUntil<K(!new)>(cfg: Config, forgets: bool, es: seq<Event<K>>, g: Gauge<K>, i: nat,
                                               j: nat)
    requires cfg.Valid() && Monotone(es) && i < j <= |es| && Quiet(es, g, i + 1, j)
    ensures GainedBy(cfg, forgets, es, g, i, j, es[j - 1].now)
    decreases j
  {
    if i + 1 == j {
      RunGains(cfg, forgets, es, j, g, es[i].now, es[i].now);
    } else {
      assert !g.UsedBy(es[j - 1]);
      QuietUntil(cfg, forgets, es, g, i, j - 1);
      GainsOn(cfg, forgets, es, g, i, j - 1);
    }
  }

  /** What a bucket gains from event `i` on while nobody uses it. */
  lemma QuietGains<K(!new)>(cfg: Config, forgets: bool, es: seq<Event<K>>, g: Gauge<K>, i: nat, j: nat, now: int)
    requires cfg.Valid() && Monotone(es) && i < j <= |es| && es[j - 1].now <= now && Quiet(es, g, i + 1, j)
    ensures GainedBy(cfg, forgets, es, g, i, j, now)
  {
    var last := es[j - 1].now;
    assert es[i].now <= last;
    QuietUntil(cfg, forgets, es, g, i, j);
    RunGains(cfg, forgets, es, j, g, last, now);
    GainedOn(g.Cap(cfg), g.Level(cfg, At(cfg, forgets, es, i + 1), es[i].now), last - es[i].now, now - last,
      g.Level(cfg, At(cfg, forgets, es, j), last), g.Level(cfg, At(cfg, forgets, es, j), now),
      Harmless(cfg, forgets, es, i + 1, j));
  }

  function PairLevel<K(==)>(cfg: Config, forgets: bool, es: seq<Event<K>>, n: nat): int
    requires n < |es| && es[n].Allow?
  {
    PairOf(es[n]).Level(cfg, At(cfg, forgets, es, n), es[n].now)
  }

  function IpLevel<K(==)>(cfg: Config, forgets: bool, es: seq<Event<K>>, n: nat): int
    requires n < |es| && es[n].Allow?
  {
    IpOf(es[n]).Level(cfg, At(cfg, forgets, es, n), es[n].now)
  }

  /** Both levels when the client asks again: what a refusal left, and the time that passed. */
  lemma LevelsOnReturn<K(!new)>(cfg: Config, forgets: bool, es: seq<Event<K>>, i: nat, j: nat)
    requires cfg.Valid() && Monotone(es) && Returns(es, i, j) && !AnswerAt(cfg, forgets, es, i).Admitted?
    ensures var dt, lost := es[j].now - es[i].now, if LosesToken(cfg, forgets, es, i) then cfg.refill else 0;
        var pair := Waited(cfg.PairCap(), PairLevel(cfg, forgets, es, i) - lost, dt);
        var ip := Waited(cfg.IpCap(), IpLevel(cfg, forgets, es, i), dt);
      && PairLevel(cfg, forgets, es, j) >= pair && IpLevel(cfg, forgets, es, j) >= ip
      && (Harmless(cfg, forgets, es, i + 1, j) ==>
            PairLevel(cfg, forgets, es, j) == pair && IpLevel(cfg, forgets, es, j) == ip)
  {
    assert PairOf(es[i]) == PairOf(es[j]) && IpOf(es[i]) == IpOf(es[j]);
    RunAnswer(cfg, forgets, es, i);
    RunStep(cfg, forgets, es, i, PairOf(es[i]));
    RunStep(cfg, forgets, es, i, IpOf(es[i]));
    QuietGains(cfg, forgets, es, PairOf(es[i]), i, j, es[j].now);
    QuietGains(cfg, forgets, es, IpOf(es[i]), i, j, es[j].now);
  }

  /** The pair token of a request that the IP bucket refused did not come back. */
  predicate LosesToken<K(==)>(cfg: Config, forgets: bool, es: seq<Event<K>>, n: nat)
    requires n < |es| && es[n].Allow?
  {
    AnswerAt(cfg, forgets, es, n).IpRefused? && !es[n].exact
  }

  /** What the client is told, from its two levels. */
  lemma AnswerByLevels<K(!new)>(cfg: Config, forgets: bool, es: seq<Event<K>>, n: nat)
    requires n < |es| && es[n].Allow?
    ensures AnswerAt(cfg, forgets, es, n) == Judge(cfg, PairLevel(cfg, forgets, es, n), IpLevel(cfg, forgets, es, n))
  {
    RunAnswer(cfg, forgets, es, n);
  }

  /** One wait makes good the bucket that refused; the other one only gains, unless a pair token
      was lost. */
  lemma OneWait<K(!new)>(cfg: Config, forgets: bool, es: seq<Event<K>>, i: nat, j: nat)
    requires cfg.Valid() && Monotone(es) && Waits(cfg, forgets, es, i, j) && !AnswerAt(cfg, forgets, es, i).Admitted?
    ensures var v, w := AnswerAt(cfg, forgets, es, i), AnswerAt(cfg, forgets, es, j);
      && (v.PairRefused? ==> PairLevel(cfg, forgets, es, j) >= cfg.refill && !w.PairRefused?)
      && (v.IpRefused? ==> IpLevel(cfg, forgets, es, j) >= cfg.IpCost() && !w.IpRefused?)
      && (v.IpRefused? && es[i].exact ==> w.Admitted?)
      && (IpLevel(cfg, forgets, es, i) >= cfg.IpCost() ==> IpLevel(cfg, forgets, es, j) >= cfg.IpCost())
  {
    CapsCoverCosts(cfg);
    AnswerByLevels(cfg, forgets, es, i);
    AnswerByLevels(cfg, forgets, es, j);
    LevelsOnReturn(cfg, forgets, es, i, j);
  }

  /** Two obeyed waits are enough, unless the IP bucket refuses after the first one and the pair
      token of that request is lost: at most one wait for the pair bucket, then at most one for
      the IP bucket. */
  lemma TwoWaitsSuffice<K(!new)>(cfg: Config, forgets: bool, es: seq<Event<K>>, i: nat, j: nat, k: nat)
    requires cfg.Valid() && Monotone(es) && Waits(cfg, forgets, es, i, j) && Waits(cfg, forgets, es, j, k)
    requires !AnswerAt(cfg, forgets, es, i).Admitted? && !AnswerAt(cfg, forgets, es, j).Admitted?
    ensures AnswerAt(cfg, forgets, es, i).PairRefused? <==> AnswerAt(cfg, forgets, es, j).IpRefused?
    ensures !LosesToken(cfg, forgets, es, j) ==> AnswerAt(cfg, forgets, es, k).Admitted?
  {
    OneWait(cfg, forgets, es, i, j);
    OneWait(cfg, forgets, es, j, k);
    AnswerByLevels(cfg, forgets, es, j);
    AnswerByLevels(cfg, forgets, es, k);
  }

  /** Exactly when two obeyed waits do not suffice: the IP bucket refused after the first one, the
      pair token of that request was lost, and the pair bucket, which had `PairLevel` then, has
      not gained a second token by the end of the second wait. */
  lemma ThirdWaitExactly<K(!new)>(cfg: Config, forgets: bool, es: seq<Event<K>>, i: nat, j: nat, k: nat)
    requires cfg.Valid() && Monotone(es) && Waits(cfg, forgets, es, i, j) && Waits(cfg, forgets, es, j, k)
    requires !AnswerAt(cfg, forgets, es, i).Admitted? && !AnswerAt(cfg, forgets, es, j).Admitted?
    requires Harmless(cfg, forgets, es, j + 1, k)
    ensures !AnswerAt(cfg, forgets, es, k).Admitted?
       <==> LosesToken(cfg, forgets, es, j) && PairLevel(cfg, forgets, es, j) + (es[k].now - es[j].now) < 2 * cfg.refill
  {
    TwoWaitsSuffice(cfg, forgets, es, i, j, k);
    OneWait(cfg, forgets, es, j, k);
    CapsCoverCosts(cfg);
    AnswerByLevels(cfg, forgets, es, j);
    AnswerByLevels(cfg, forgets, es, k);
    LevelsOnReturn(cfg, forgets, es, j, k);
  }

  /** Whatever refunds are lost, three obeyed waits are enough. */
  lemma ThreeWaitsAlwaysSuffice<K(!new)>(cfg: Config, forgets: bool, es: seq<Event<K>>, i: nat, j: nat, k: nat, l: nat)
    requires cfg.Valid() && Monotone(es)
    requires Waits(cfg, forgets, es, i, j) && Waits(cfg, forgets, es, j, k) && Waits(cfg, forgets, es, k, l)
    requires !AnswerAt(cfg, forgets, es, i).Admitted? && !AnswerAt(cfg, forgets, es, j).Admitted?
          && !AnswerAt(cfg, forgets, es, k).Admitted?
    ensures AnswerAt(cfg, forgets, es, l).Admitted?
  {
    TwoWaitsSuffice(cfg, forgets, es, i, j, k);
    OneWait(cfg, forgets, es, j, k);
    OneWait(cfg, forgets, es, k, l);
    AnswerByLevels(cfg, forgets, es, k);
    AnswerByLevels(cfg, forgets, es, l);
  }

  const SECOND: int := 1_000_000_000

  /** The Retry-After header: whole seconds of the delay, at least one. */
  function RetrySeconds(delay: int): (secs: int)
    ensures secs >= 1
    ensures delay - SECOND < secs * SECOND
    ensures delay >= SECOND ==> secs * SECOND <= delay
  {
    if delay < SECOND then 1 else delay / SECOND
  }
}

/** Two device cookies on one IP never feel the IP bucket; a third one can. */
module LimiterSharing {
  import opened Limiter
  import opened LimiterWindow
  import opened LimiterEviction

  /** Only the pairs `a` and `b` ask from `ip`. */
  ghost predicate AtMostTwo<K(!new)>(es: seq<Event<K>>, ip: string, a: K, b: K) {
    forall n | 0 <= n < |es| && es[n].Allow? && es[n].ip == ip :: es[n].pair == a || es[n].pair == b
  }

  /** In tokens, the credit of the IP covers that of both pairs. */
  ghost predicate Covers(cfg: Config, ip: int, a: int, b: int) {
    ip * cfg.refill >= (a + b) * cfg.IpCost()
  }

  lemma WaitingCovers(cfg: Config, ip: int, a: int, b: int, dt: nat)
    requires cfg.Valid() && Covers(cfg, ip, a, b)
    ensures Covers(cfg, Min(cfg.IpCap(), ip + dt), Min(cfg.PairCap(), a + dt), Min(cfg.PairCap(), b + dt))
  {
    var r, h := cfg.refill, cfg.IpCost();
    var a', b' := Min(cfg.PairCap(), a + dt), Min(cfg.PairCap(), b + dt);
    Scale(a' + b', a + b + 2 * dt, h);
    Scale(a' + b', 2 * cfg.PairCap(), h);
    Scale(2 * h, r, dt);
    assert (ip + dt) * r == ip * r + dt * r;
    assert (a + b + 2 * dt) * h == (a + b) * h + dt * (2 * h);
    FullCovers(cfg);
  }

  lemma Scale(x: int, y: int, c: nat)
    requires x <= y
    ensures x * c <= y * c && c * x <= c * y
  {
  }

  lemma FullCovers(cfg: Config)
    ensures cfg.IpCap() * cfg.refill == 2 * cfg.PairCap() * cfg.IpCost()
    ensures Covers(cfg, cfg.IpCap(), cfg.PairCap(), cfg.PairCap())
  {
    var b, r, h := cfg.burst, cfg.refill, cfg.IpCost();
    assert 2 * b * h * r == 2 * (b * r) * h;
  }

  /** A token from the IP and a token from either pair keep the balance. */
  lemma SpendingCovers(cfg: Config, ip: int, a: int, b: int)
    requires Covers(cfg, ip, a, b)
    ensures Covers(cfg, ip - cfg.IpCost(), a - cfg.refill, b) && Covers(cfg, ip - cfg.IpCost(), a, b - cfg.refill)
  {
    var r, h := cfg.refill, cfg.IpCost();
    assert (ip - h) * r == ip * r - h * r;
    assert (a - r + b) * h == (a + b) * h - r * h;
    assert (a + (b - r)) * h == (a + b) * h - r * h;
  }

  lemma LosingCovers(cfg: Config, ip: int, a: int, b: int, a': int, b': int)
    requires Covers(cfg, ip, a, b) && a' <= a && b' <= b
    ensures Covers(cfg, ip, a', b')
  {
    Scale(a' + b', a + b, cfg.IpCost());
  }

  /** Whoever's pair bucket can pay, the IP bucket can too. */
  lemma CoveredPays(cfg: Config, ip: int, a: int, b: int)
    requires cfg.Valid() && Covers(cfg, ip, a, b) && 0 <= a && 0 <= b && (a >= cfg.refill || b >= cfg.refill)
    ensures ip >= cfg.IpCost()
  {
    Scale(cfg.refill, a + b, cfg.IpCost());
    assert ip * cfg.refill >= cfg.IpCost() * cfg.refill;
  }

  ghost predicate CoveredAt<K(!new)>(cfg: Config, es: seq<Event<K>>, n: nat, now: int, ip: string, a: K, b: K)
    requires n <= |es|
  {
    var s := At(cfg, false, es, n);
    Covers(cfg, IpGauge(ip).Level(cfg, s, now), PairGauge(a).Level(cfg, s, now), PairGauge(b).Level(cfg, s, now))
  }

  lemma GainsCover<K(!new)>(cfg: Config, es: seq<Event<K>>, n: nat, t: int, now: int, ip: string, a: K, b: K)
    requires cfg.Valid() && Monotone(es) && n <= |es| && (n > 0 ==> es[n - 1].now <= t) && t <= now
    requires CoveredAt(cfg, es, n, t, ip, a, b)
    ensures CoveredAt(cfg, es, n, now, ip, a, b)
  {
    var s := At(cfg, false, es, n);
    RunGains(cfg, false, es, n, IpGauge(ip), t, now);
    RunGains(cfg, false, es, n, PairGauge(a), t, now);
    RunGains(cfg, false, es, n, PairGauge(b), t, now);
    WaitingCovers(cfg, IpGauge(ip).Level(cfg, s, t), PairGauge(a).Level(cfg, s, t), PairGauge(b).Level(cfg, s, t),
                  now - t);
  }

  /** The balance after one event, from the levels before it. */
  lemma JudgedCovers<K(!new)>(cfg: Config, e: Event<K>, ip: string, a: K, b: K, pair: int, own: int, q: int, pa: int,
                              pb: int)
    requires cfg.Valid() && e.Allow? && Covers(cfg, q, pa, pb) && 0 <= pa && 0 <= pb
    requires (e.pair == a ==> pair == pa) && (e.pair == b ==> pair == pb) && (e.ip == ip ==> own == q)
    requires e.ip == ip ==> e.pair == a || e.pair == b
    ensures Covers(cfg, LevelAfter(cfg, IpGauge(ip), e, pair, own, q),
                        LevelAfter(cfg, PairGauge(a), e, pair, own, pa),
                        LevelAfter(cfg, PairGauge(b), e, pair, own, pb))
    ensures e.ip == ip ==> !Judge(cfg, pair, own).IpRefused?
  {
    var pa' := LevelAfter(cfg, PairGauge(a), e, pair, own, pa);
    var pb' := LevelAfter(cfg, PairGauge(b), e, pair, own, pb);
    if e.ip == ip && pair >= cfg.refill {
      CoveredPays(cfg, q, pa, pb);
      SpendingCovers(cfg, q, pa, pb);
      if e.pair == a {
        LosingCovers(cfg, q - cfg.IpCost(), pa - cfg.refill, pb, pa', pb');
      } else {
        LosingCovers(cfg, q - cfg.IpCost(), pa, pb - cfg.refill, pa', pb');
      }
    } else {
      LosingCovers(cfg, q, pa, pb, pa', pb');
    }
  }

  lemma StepCovers<K(!new)>(cfg: Config, es: seq<Event<K>>, n: nat, ip: string, a: K, b: K)
    requires cfg.Valid() && Monotone(es) && n < |es| && AtMostTwo(es, ip, a, b) && es[n].Allow?
    requires CoveredAt(cfg, es, n, es[n].now, ip, a, b)
    ensures CoveredAt(cfg, es, n + 1, es[n].now, ip, a, b)
    ensures es[n].ip == ip ==> !AnswerAt(cfg, false, es, n).IpRefused?
  {
    var e, s := es[n], At(cfg, false, es, n);
    RunStep(cfg, false, es, n, IpGauge(ip));
    RunStep(cfg, false, es, n, PairGauge(a));
    RunStep(cfg, false, es, n, PairGauge(b));
    RunGains(cfg, false, es, n, PairGauge(a), e.now, e.now);
    RunGains(cfg, false, es, n, PairGauge(b), e.now, e.now);
    RunAnswer(cfg, false, es, n);
    JudgedCovers(cfg, e, ip, a, b, PairOf(e).Level(cfg, s, e.now), IpOf(e).Level(cfg, s, e.now),
      IpGauge(ip).Level(cfg, s, e.now), PairGauge(a).Level(cfg, s, e.now), PairGauge(b).Level(cfg, s, e.now));
  }

  lemma {:induction false} RunCovers<K(!new)>(cfg: Config, es: seq<Event<K>>, n: nat, now: int, ip: string, a: K, b: K)
    requires cfg.Valid() && Monotone(es) && n <= |es| && (n > 0 ==> es[n - 1].now <= now) && AtMostTwo(es, ip, a, b)
    ensures CoveredAt(cfg, es, n, now, ip, a, b)
  {
    if n == 0 {
      FullCovers(cfg);
    } else {
      RunCovers(cfg, es, n - 1, es[n - 1].now, ip, a, b);
      if es[n - 1].Allow? {
        StepCovers(cfg, es, n - 1, ip, a, b);
      }
      GainsCover(cfg, es, n, es[n - 1].now, now, ip, a, b);
    }
  }

  /** While at most two cookies use an IP, its bucket refuses none of their requests, whatever
      the rounding of the half interval, and sweeps included when an hour fills a bucket. */
  lemma IpBucketIdleForTwo<K(!new)>(cfg: Config, forgets: bool, es: seq<Event<K>>, n: nat, a: K, b: K)
    requires cfg.Valid() && Monotone(es) && (forgets ==> HourFills(cfg))
    requires n < |es| && es[n].Allow? && AtMostTwo(es, es[n].ip, a, b)
    ensures !AnswerAt(cfg, forgets, es, n).IpRefused?
  {
    RunCovers(cfg, es, n, es[n].now, es[n].ip, a, b);
    StepCovers(cfg, es, n, es[n].ip, a, b);
    if forgets {
      AnswersAgree(cfg, es, n);
    }
  }

  // ----- two is the limit

  /** Two cookies spend a burst each, then a third one asks. */
  function ThreeCookies(cfg: Config): seq<Event<string>> {
    seq(cfg.burst, _ => Allow("a", "ip", 0, true)) + seq(cfg.burst, _ => Allow("b", "ip", 0, true))
    + [Allow("c", "ip", 0, true)]
  }

  /** Both bursts, with "b" and "c" new when they come. */
  ghost predicate TwoThenOne(cfg: Config, es: seq<Event<string>>, n: nat, m: nat) {
    && n == cfg.burst && m == n + n && m < |es| && Monotone(es) && es[m] == Allow("c", "ip", 0, true)
    && Repeats(es, 0, n, Allow("a", "ip", 0, true)) && Repeats(es, n, n, Allow("b", "ip", 0, true))
    && (forall i | 0 <= i < n :: !PairGauge("b").UsedBy(es[i]))
    && (forall i | 0 <= i < m :: !PairGauge("c").UsedBy(es[i]))
  }

  lemma ThreeCookiesShape(cfg: Config)
    ensures TwoThenOne(cfg, ThreeCookies(cfg), cfg.burst, 2 * cfg.burst)
  {
  }

  /** For every configuration a third cookie can be refused by the IP bucket alone. */
  lemma ThirdCookieRefused(cfg: Config, forgets: bool)
    requires cfg.Valid()
    ensures Monotone(ThreeCookies(cfg))
    ensures AnswerAt(cfg, forgets, ThreeCookies(cfg), 2 * cfg.burst) == IpRefused(cfg.IpCost())
  {
    ThreeCookiesShape(cfg);
    RefusedAfterTwo(cfg, forgets, ThreeCookies(cfg), cfg.burst, 2 * cfg.burst);
  }

  lemma RefusedAfterTwo(cfg: Config, forgets: bool, es: seq<Event<string>>, n: nat, m: nat)
    requires cfg.Valid() && TwoThenOne(cfg, es, n, m)
    ensures AnswerAt(cfg, forgets, es, m) == IpRefused(cfg.IpCost())
  {
    TwoBursts(cfg, forgets, es, n, m);
    RunAnswer(cfg, forgets, es, m);
    CapsCoverCosts(cfg);
  }

  lemma TwoBursts(cfg: Config, forgets: bool, es: seq<Event<string>>, n: nat, m: nat)
    requires cfg.Valid() && TwoThenOne(cfg, es, n, m)
    ensures PairLeft(cfg, forgets, es, m, Allow("c", "ip", 0, true), cfg.PairCap())
    ensures IpLeft(cfg, forgets, es, m, Allow("c", "ip", 0, true), 0)
  {
    FullBurst(cfg, forgets, es, 0, Allow("a", "ip", 0, true));
    Untouched(cfg, forgets, es, PairGauge("b"), n);
    SecondBurst(cfg, forgets, es, n, Allow("b", "ip", 0, true));
    Untouched(cfg, forgets, es, PairGauge("c"), m);
  }

  lemma SecondBurst(cfg: Config, forgets: bool, es: seq<Event<string>>, i: nat, e: Event<string>)
    requires cfg.Valid() && Monotone(es) && e.Allow? && Repeats(es, i, cfg.burst, e)
    requires PairLeft(cfg, forgets, es, i, e, cfg.PairCap()) && IpLeft(cfg, forgets, es, i, e, cfg.burst * cfg.IpCost())
    ensures IpLeft(cfg, forgets, es, i + cfg.burst, e, 0)
  {
    var pair, ip := cfg.burst * cfg.refill, cfg.burst * cfg.IpCost();
    BurstSpends(cfg, forgets, es, i, cfg.burst, e, pair, ip, pair, ip);
  }
}

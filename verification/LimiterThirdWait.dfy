/** When a lost refund can cost a client a third wait: in some run, for every configuration whose
    IP interval is longer than a nanosecond. */
module LimiterThirdWait {
  import opened Limiter
  import opened LimiterWindow
  import opened LimiterRetry

  /** Requests i, j and k of one client are refused although it waits as told. */
  ghost predicate NeedsThird(cfg: Config, forgets: bool, es: seq<Event<string>>, i: nat, j: nat, k: nat) {
    && Monotone(es) && Waits(cfg, forgets, es, i, j) && Waits(cfg, forgets, es, j, k)
    && !AnswerAt(cfg, forgets, es, i).Admitted? && !AnswerAt(cfg, forgets, es, j).Admitted?
    && !AnswerAt(cfg, forgets, es, k).Admitted?
  }

  /** Any wait fills an IP bucket that gains a token every nanosecond. */
  lemma ShortInterval(cfg: Config, forgets: bool, es: seq<Event<string>>, i: nat, j: nat, k: nat)
    requires cfg.Valid() && cfg.refill < 4
    ensures !NeedsThird(cfg, forgets, es, i, j, k)
  {
    if NeedsThird(cfg, forgets, es, i, j, k) {
      TwoWaitsSuffice(cfg, forgets, es, i, j, k);
      AnswerByLevels(cfg, forgets, es, i);
      AnswerByLevels(cfg, forgets, es, j);
      LevelsOnReturn(cfg, forgets, es, i, j);
      RunGains(cfg, forgets, es, i, IpOf(es[i]), es[i].now, es[i].now);
      CapsCoverCosts(cfg);
      assert false;
    }
  }

  // ----- a run with a third wait

  function Ask(pair: string, now: int): Event<string> {
    Allow(pair, "ip", now, false)
  }

  /** The last instant at which the pair bucket, empty at zero, is not yet full. */
  function AlmostFull(cfg: Config): int {
    cfg.PairCap() - 1
  }

  /** Cookie "a" empties its bucket, comes back when it is one nanosecond short of full, and is
      left one nanosecond short of a token; the others empty the IP bucket. */
  ghost predicate LostRefund(cfg: Config, es: seq<Event<string>>) {
    var b, t := cfg.burst, AlmostFull(cfg);
    && b >= 1 && |es| == 3 * b + 3 && Monotone(es)
    && Repeats(es, 0, b, Ask("a", 0)) && Repeats(es, b, b - 1, Ask("a", t)) && Repeats(es, 2 * b - 1, b, Ask("b", t))
    && Repeats(es, 3 * b - 1, 1, Ask("c", t))
    && es[3 * b] == Ask("a", t) && es[3 * b + 1] == Ask("a", t + 1) && es[3 * b + 2] == Ask("a", t + cfg.IpCost())
  }

  lemma LostRefundExists(cfg: Config) returns (es: seq<Event<string>>)
    requires cfg.Valid()
    ensures LostRefund(cfg, es)
  {
    var b, t := cfg.burst, AlmostFull(cfg);
    CapsCoverCosts(cfg);
    es := seq(b, _ => Ask("a", 0)) + seq(b - 1, _ => Ask("a", t)) + seq(b, _ => Ask("b", t))
        + [Ask("c", t), Ask("a", t), Ask("a", t + 1), Ask("a", t + cfg.IpCost())];
  }

  ghost predicate Levels(cfg: Config, forgets: bool, es: seq<Event<string>>, n: nat, now: int, a: int, ip: int)
    requires n <= |es|
  {
    PairLeft(cfg, forgets, es, n, Ask("a", now), a) && IpLeft(cfg, forgets, es, n, Ask("a", now), ip)
  }

  lemma Products(cfg: Config)
    requires cfg.Valid()
    ensures var b, r, c := cfg.burst, cfg.refill, cfg.IpCost();
      && cfg.IpCap() == b * c + b * c && b * c >= c && b * c + b * c <= b * r
      && (b - 1) * r == b * r - r && (b - 1) * c == b * c - c
  {
    CapsCoverCosts(cfg);
    assert cfg.burst * cfg.IpCost() == cfg.IpCost() + (cfg.burst - 1) * cfg.IpCost();
  }

  /** The first burst of "a", and the time until its bucket is almost full again. */
  lemma AfterFirstBurst(cfg: Config, forgets: bool, es: seq<Event<string>>)
    requires cfg.Valid() && Monotone(es) && Repeats(es, 0, cfg.burst, Ask("a", 0))
    ensures Levels(cfg, forgets, es, cfg.burst, AlmostFull(cfg), AlmostFull(cfg), cfg.IpCap())
  {
    var t, spent := AlmostFull(cfg), cfg.burst * cfg.IpCost();
    Products(cfg);
    FullBurst(cfg, forgets, es, 0, Ask("a", 0));
    assert es[cfg.burst - 1] == Ask("a", 0);
    Refills(cfg, forgets, es, cfg.burst, PairGauge("a"), 0, t, 0);
    Refills(cfg, forgets, es, cfg.burst, IpGauge("ip"), 0, t, spent);
  }

  lemma Refills(cfg: Config, forgets: bool, es: seq<Event<string>>, n: nat, g: Gauge<string>, t: int, now: int,
                level: int)
    requires cfg.Valid() && Monotone(es) && 0 < n <= |es| && es[n - 1].now <= t <= now
    requires Reads(cfg, forgets, es, n, g, t, level)
    ensures Reads(cfg, forgets, es, n, g, now, Min(g.Cap(cfg), level + (now - t)))
  {
    RunGains(cfg, forgets, es, n, g, t, now);
  }

  /** The second one leaves it a nanosecond short of a token. */
  lemma AfterOwnBursts(cfg: Config, forgets: bool, es: seq<Event<string>>, k: nat)
    requires cfg.Valid() && Monotone(es) && Repeats(es, 0, cfg.burst, Ask("a", 0))
    requires k == cfg.burst - 1 && Repeats(es, cfg.burst, k, Ask("a", AlmostFull(cfg)))
    ensures Levels(cfg, forgets, es, cfg.burst + k, AlmostFull(cfg), cfg.refill - 1,
                   cfg.burst * cfg.IpCost() + cfg.IpCost())
  {
    var t, pair, ip := AlmostFull(cfg), k * cfg.refill, k * cfg.IpCost();
    AfterFirstBurst(cfg, forgets, es);
    Products(cfg);
    assert t - pair == cfg.refill - 1 && cfg.IpCap() - ip == cfg.burst * cfg.IpCost() + cfg.IpCost();
    BurstSpends(cfg, forgets, es, cfg.burst, k, Ask("a", t), t, cfg.IpCap(), pair, ip);
  }

  /** A burst of a new cookie takes its cost from the IP bucket and nothing from "a". */
  lemma AfterNewcomer(cfg: Config, forgets: bool, es: seq<Event<string>>, n: nat, k: nat, own: string, now: int,
                      a: int, ip: int, left: int)
    requires cfg.Valid() && Monotone(es) && own != "a" && k <= cfg.burst && ip - left == k * cfg.IpCost() && left >= 0
    requires Repeats(es, n, k, Ask(own, now)) && Unused(es, PairGauge(own), n)
    requires Levels(cfg, forgets, es, n, now, a, ip)
    ensures Levels(cfg, forgets, es, n + k, now, a, left)
  {
    Untouched(cfg, forgets, es, PairGauge(own), n);
    Scale(k, cfg.burst, cfg.refill);
    BurstSpends(cfg, forgets, es, n, k, Ask(own, now), cfg.PairCap(), ip, k * cfg.refill, ip - left);
    Bystander(cfg, forgets, es, n, k, Ask(own, now), PairGauge("a"), a);
  }

  /** The other cookies take what is left of the IP bucket. */
  lemma AfterOthers(cfg: Config, forgets: bool, es: seq<Event<string>>, k: nat, n: nat, m: nat)
    requires cfg.Valid() && Phases(cfg, es, k, n, m)
    ensures Levels(cfg, forgets, es, m + 1, AlmostFull(cfg), cfg.refill - 1, 0)
  {
    var ip := cfg.burst * cfg.IpCost() + cfg.IpCost();
    AfterOwnBursts(cfg, forgets, es, k);
    assert cfg.burst + k == n;
    Drained(cfg, forgets, es, n, AlmostFull(cfg), cfg.refill - 1, ip);
  }

  /** The first `m + 1` events, with "b" and "c" new when they come. */
  ghost predicate Phases(cfg: Config, es: seq<Event<string>>, k: nat, n: nat, m: nat) {
    && k == cfg.burst - 1 && n == cfg.burst + k && m == n + cfg.burst && Monotone(es)
    && Repeats(es, 0, cfg.burst, Ask("a", 0)) && Repeats(es, cfg.burst, k, Ask("a", AlmostFull(cfg)))
    && Repeats(es, n, cfg.burst, Ask("b", AlmostFull(cfg))) && Unused(es, PairGauge("b"), n)
    && Repeats(es, m, 1, Ask("c", AlmostFull(cfg))) && Unused(es, PairGauge("c"), m)
  }

  lemma Newcomers(cfg: Config, es: seq<Event<string>>)
    requires LostRefund(cfg, es)
    ensures Phases(cfg, es, cfg.burst - 1, 2 * cfg.burst - 1, 3 * cfg.burst - 1)
  {
  }

  ghost predicate Unused(es: seq<Event<string>>, g: Gauge<string>, n: nat) {
    n <= |es| && forall m | 0 <= m < n :: !g.UsedBy(es[m])
  }

  /** One cookie spends a burst and another one a single token. */
  lemma Drained(cfg: Config, forgets: bool, es: seq<Event<string>>, n: nat, now: int, a: int, ip: int)
    requires cfg.Valid() && Monotone(es) && ip - cfg.IpCost() == cfg.burst * cfg.IpCost()
    requires Repeats(es, n, cfg.burst, Ask("b", now)) && Unused(es, PairGauge("b"), n)
    requires Repeats(es, n + cfg.burst, 1, Ask("c", now)) && Unused(es, PairGauge("c"), n + cfg.burst)
    requires Levels(cfg, forgets, es, n, now, a, ip)
    ensures Levels(cfg, forgets, es, n + cfg.burst + 1, now, a, 0)
  {
    AfterNewcomer(cfg, forgets, es, n, cfg.burst, "b", now, a, ip, cfg.IpCost());
    AfterNewcomer(cfg, forgets, es, n + cfg.burst, 1, "c", now, a, cfg.IpCost(), 0);
  }

  /** Refused by the pair bucket, then by the IP bucket, which costs the pair token, then by the
      pair bucket again. */
  lemma LostRefundNeedsThird(cfg: Config, forgets: bool, es: seq<Event<string>>)
    requires cfg.Valid() && cfg.refill >= 4 && LostRefund(cfg, es)
    ensures NeedsThird(cfg, forgets, es, 3 * cfg.burst, 3 * cfg.burst + 1, 3 * cfg.burst + 2)
  {
    var i, j, k := 3 * cfg.burst, 3 * cfg.burst + 1, 3 * cfg.burst + 2;
    CapsCoverCosts(cfg);
    Newcomers(cfg, es);
    AfterOthers(cfg, forgets, es, cfg.burst - 1, 2 * cfg.burst - 1, 3 * cfg.burst - 1);
    AnswerByLevels(cfg, forgets, es, i);
    assert AnswerAt(cfg, forgets, es, i) == PairRefused(1);
    LevelsOnReturn(cfg, forgets, es, i, j);
    AnswerByLevels(cfg, forgets, es, j);
    assert AnswerAt(cfg, forgets, es, j) == IpRefused(cfg.IpCost() - 1);
    ThirdWaitExactly(cfg, forgets, es, i, j, k);
  }

  /** Some client in some run has to wait a third time if and only if the refill interval is at
      least four nanoseconds. */
  lemma ThirdWaitPossibleExactly(cfg: Config, forgets: bool)
    requires cfg.Valid()
    ensures (exists es: seq<Event<string>>, i: nat, j: nat, k: nat :: NeedsThird(cfg, forgets, es, i, j, k)) <==>
      cfg.refill >= 4
  {
    if cfg.refill >= 4 {
      var es := LostRefundExists(cfg);
      LostRefundNeedsThird(cfg, forgets, es);
    } else {
      forall es: seq<Event<string>>, i: nat, j: nat, k: nat ensures !NeedsThird(cfg, forgets, es, i, j, k) {
        ShortInterval(cfg, forgets, es, i, j, k);
      }
    }
  }
}

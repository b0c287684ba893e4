/** How many requests a bucket can admit in a window of time, over any run. */
module LimiterWindow {
  import opened Limiter

  /** One event seen from one gauge: its credit right before and right after. */
  datatype Reading = Reading(now: int, before: int, after: int, admitted: bool)

  function ReadingAt<K(==)>(cfg: Config, forgets: bool, es: seq<Event<K>>, g: Gauge<K>, n: nat): Reading
    requires n < |es|
  {
    var e := es[n];
    Reading(e.now, g.Level(cfg, At(cfg, forgets, es, n), e.now), g.Level(cfg, At(cfg, forgets, es, n + 1), e.now),
            g.UsedBy(e) && AnswerAt(cfg, forgets, es, n).Admitted?)
  }

  function Readings<K(==)>(cfg: Config, forgets: bool, es: seq<Event<K>>, g: Gauge<K>): seq<Reading> {
    seq(|es|, n requires 0 <= n < |es| => ReadingAt(cfg, forgets, es, g, n))
  }

  /** Requests admitted among readings i..j-1. */
  function Admissions(rs: seq<Reading>, i: nat, j: nat): nat
    requires i <= j <= |rs|
    decreases j
  {
    if i == j then 0 else Admissions(rs, i, j - 1) + if rs[j - 1].admitted then 1 else 0
  }

  /** Requests on the gauge among events i..j-1 that were admitted. */
  function AdmittedIn<K(==)>(cfg: Config, forgets: bool, es: seq<Event<K>>, g: Gauge<K>, i: nat, j: nat): nat
    requires i <= j <= |es|
  {
    Admissions(Readings(cfg, forgets, es, g), i, j)
  }

  ghost predicate Lawful(rs: seq<Reading>, n: nat, cap: int, cost: int)
    requires n < |rs|
  {
    && 0 <= rs[n].after && rs[n].before <= cap
    && rs[n].after + (if rs[n].admitted then cost else 0) <= rs[n].before
    && (n > 0 ==> rs[n - 1].now <= rs[n].now && rs[n].before <= rs[n - 1].after + (rs[n].now - rs[n - 1].now))
  }

  lemma ReadingBounds<K(!new)>(cfg: Config, forgets: bool, es: seq<Event<K>>, g: Gauge<K>, n: nat)
    requires cfg.Valid() && Monotone(es) && n < |es|
    ensures 0 <= ReadingAt(cfg, forgets, es, g, n).after && ReadingAt(cfg, forgets, es, g, n).before <= g.Cap(cfg)
  {
    RunGains(cfg, forgets, es, n, g, es[n].now, es[n].now);
    RunGains(cfg, forgets, es, n + 1, g, es[n].now, es[n].now);
  }

  lemma ReadingGains<K(!new)>(cfg: Config, forgets: bool, es: seq<Event<K>>, g: Gauge<K>, n: nat)
    requires cfg.Valid() && Monotone(es) && 0 < n < |es|
    ensures ReadingAt(cfg, forgets, es, g, n).before
         <= ReadingAt(cfg, forgets, es, g, n - 1).after + (es[n].now - es[n - 1].now)
  {
    RunGains(cfg, forgets, es, n, g, es[n - 1].now, es[n].now);
  }

  lemma ReadingSpends<K(!new)>(cfg: Config, forgets: bool, es: seq<Event<K>>, g: Gauge<K>, n: nat)
    requires cfg.Valid() && Monotone(es) && (forgets ==> HourFills(cfg)) && n < |es|
    ensures var r := ReadingAt(cfg, forgets, es, g, n);
      r.after + (if r.admitted then g.Cost(cfg) else 0) <= r.before
  {
    CapsCoverCosts(cfg);
    RunStep(cfg, forgets, es, n, g);
    if es[n].Allow? {
      RunAnswer(cfg, forgets, es, n);
    }
  }

  lemma ReadingLawful<K(!new)>(cfg: Config, forgets: bool, es: seq<Event<K>>, g: Gauge<K>, n: nat)
    requires cfg.Valid() && Monotone(es) && (forgets ==> HourFills(cfg)) && n < |es|
    ensures Lawful(Readings(cfg, forgets, es, g), n, g.Cap(cfg), g.Cost(cfg))
  {
    ReadingSpends(cfg, forgets, es, g, n);
    ReadingBounds(cfg, forgets, es, g, n);
    if n > 0 {
      ReadingGains(cfg, forgets, es, g, n);
    }
  }

  /** An admitted request pays for itself, and waiting earns at most its own length. */
  lemma ReadingsLawful<K(!new)>(cfg: Config, forgets: bool, es: seq<Event<K>>, g: Gauge<K>)
    requires cfg.Valid() && Monotone(es) && (forgets ==> HourFills(cfg))
    ensures forall n: nat | n < |es| :: Lawful(Readings(cfg, forgets, es, g), n, g.Cap(cfg), g.Cost(cfg))
  {
    forall n: nat | n < |es| ensures Lawful(Readings(cfg, forgets, es, g), n, g.Cap(cfg), g.Cost(cfg)) {
      ReadingLawful(cfg, forgets, es, g, n);
    }
  }

  /** Spending and remaining credit never exceed the starting credit plus the time passed. */
  lemma {:induction false} CreditAccount(rs: seq<Reading>, i: nat, j: nat, cap: int, cost: int)
    requires i < j <= |rs| && forall n: nat | n < |rs| :: Lawful(rs, n, cap, cost)
    ensures Admissions(rs, i, j) * cost + rs[j - 1].after <= rs[i].before + (rs[j - 1].now - rs[i].now)
    decreases j
  {
    assert Lawful(rs, j - 1, cap, cost);
    var n := Admissions(rs, i, j - 1);
    assert (n + 1) * cost == n * cost + cost;
    if i < j - 1 {
      CreditAccount(rs, i, j - 1, cap, cost);
    }
  }

  lemma Scale(a: int, b: int, c: int)
    requires a <= b && c >= 0
    ensures a * c <= b * c
  {
    assert b * c == a * c + (b - a) * c;
  }

  lemma Cancel(a: int, b: int, c: int)
    requires c >= 1 && a * c < b * c
    ensures a < b
  {
    if a >= b {
      Scale(b, a, c);
    }
  }

  lemma DivideAccount(n: int, tokens: int, cost: int, time: int)
    requires cost >= 1 && time >= 0 && n * cost <= tokens * cost + time
    ensures n <= tokens + time / cost
  {
    var q := time / cost;
    assert (n - tokens) * cost == n * cost - tokens * cost;
    assert (q + 1) * cost == q * cost + cost;
    Cancel(n - tokens, q + 1, cost);
  }

  /** In any window, sweeps included when an hour fills a bucket: a pair gets at most burst
      requests plus one per refill interval, an IP over all its cookies at most twice the burst
      plus one per half interval. */
  lemma WindowBound<K(!new)>(cfg: Config, forgets: bool, es: seq<Event<K>>, i: nat, j: nat, pair: K, ip: string)
    requires cfg.Valid() && Monotone(es) && (forgets ==> HourFills(cfg)) && i < j <= |es|
    ensures AdmittedIn(cfg, forgets, es, PairGauge(pair), i, j)
         <= cfg.burst + (es[j - 1].now - es[i].now) / cfg.refill
    ensures AdmittedIn(cfg, forgets, es, IpGauge(ip), i, j)
         <= 2 * cfg.burst + (es[j - 1].now - es[i].now) / (cfg.refill / 2)
  {
    CapsCoverCosts(cfg);
    assert es[i].now <= es[j - 1].now;
    GaugeWindow(cfg, forgets, es, i, j, PairGauge(pair), cfg.burst);
    GaugeWindow(cfg, forgets, es, i, j, IpGauge(ip), 2 * cfg.burst);
  }

  lemma GaugeWindow<K(!new)>(cfg: Config, forgets: bool, es: seq<Event<K>>, i: nat, j: nat, g: Gauge<K>, tokens: nat)
    requires cfg.Valid() && Monotone(es) && (forgets ==> HourFills(cfg)) && i < j <= |es|
    requires g.Cap(cfg) == tokens * g.Cost(cfg) && g.Cost(cfg) >= 1 && es[i].now <= es[j - 1].now
    ensures AdmittedIn(cfg, forgets, es, g, i, j) <= tokens + (es[j - 1].now - es[i].now) / g.Cost(cfg)
  {
    var rs := Readings(cfg, forgets, es, g);
    ReadingsLawful(cfg, forgets, es, g);
    AccountBound(rs, i, j, tokens, g.Cost(cfg));
  }

  lemma AccountBound(rs: seq<Reading>, i: nat, j: nat, tokens: nat, cost: int)
    requires i < j <= |rs| && cost >= 1 && rs[i].now <= rs[j - 1].now
    requires forall n: nat | n < |rs| :: Lawful(rs, n, tokens * cost, cost)
    ensures Admissions(rs, i, j) <= tokens + (rs[j - 1].now - rs[i].now) / cost
  {
    CreditAccount(rs, i, j, tokens * cost, cost);
    assert Lawful(rs, i, tokens * cost, cost) && Lawful(rs, j - 1, tokens * cost, cost);
    DivideAccount(Admissions(rs, i, j), tokens, cost, rs[j - 1].now - rs[i].now);
  }

  // ----- a burst that the buckets can pay for

  ghost predicate CountsOn<K(!new)>(cfg: Config, forgets: bool, es: seq<Event<K>>, g: Gauge<K>, n: nat)
    requires n < |es|
  {
    g.UsedBy(es[n]) && AnswerAt(cfg, forgets, es, n).Admitted?
  }

  /** Events i..i+k-1 are the same request at the same instant. */
  ghost predicate Repeats<K>(es: seq<Event<K>>, i: nat, k: nat, e: Event<K>) {
    i + k <= |es| && forall n | i <= n < i + k :: es[n] == e
  }

  /** A request that both buckets can pay for. */
  lemma Pays<K(!new)>(cfg: Config, forgets: bool, es: seq<Event<K>>, n: nat, pair: int, ip: int)
    requires cfg.Valid() && Monotone(es) && n < |es| && es[n].Allow? && pair >= cfg.refill && ip >= cfg.IpCost()
    requires PairOf(es[n]).Level(cfg, At(cfg, forgets, es, n), es[n].now) == pair
    requires IpOf(es[n]).Level(cfg, At(cfg, forgets, es, n), es[n].now) == ip
    ensures AnswerAt(cfg, forgets, es, n).Admitted?
    ensures PairOf(es[n]).Level(cfg, At(cfg, forgets, es, n + 1), es[n].now) == pair - cfg.refill
    ensures IpOf(es[n]).Level(cfg, At(cfg, forgets, es, n + 1), es[n].now) == ip - cfg.IpCost()
  {
    RunAnswer(cfg, forgets, es, n);
    RunStep(cfg, forgets, es, n, PairOf(es[n]));
    RunStep(cfg, forgets, es, n, IpOf(es[n]));
  }

  ghost predicate PairLeft<K(!new)>(cfg: Config, forgets: bool, es: seq<Event<K>>, n: nat, e: Event<K>, credit: int)
    requires n <= |es| && e.Allow?
  {
    PairOf(e).Level(cfg, At(cfg, forgets, es, n), e.now) == credit
  }

  ghost predicate IpLeft<K(!new)>(cfg: Config, forgets: bool, es: seq<Event<K>>, n: nat, e: Event<K>, credit: int)
    requires n <= |es| && e.Allow?
  {
    IpOf(e).Level(cfg, At(cfg, forgets, es, n), e.now) == credit
  }

  lemma OneLess(k: nat, cost: nat)
    requires k > 0
    ensures k * cost == (k - 1) * cost + cost && (k - 1) * cost >= 0
  {
  }

  /** A burst that both buckets can pay for is admitted and costs each of them one token a
      request; a full pair bucket can pay for `cfg.burst` requests. */
  lemma {:induction false} BurstAdmitted<K(!new)>(cfg: Config, forgets: bool, es: seq<Event<K>>, i: nat, k: nat,
                                                  e: Event<K>, pair: int, ip: int)
    requires cfg.Valid() && Monotone(es) && e.Allow? && Repeats(es, i, k, e)
    requires k * cfg.refill <= pair && k * cfg.IpCost() <= ip
    requires PairLeft(cfg, forgets, es, i, e, pair) && IpLeft(cfg, forgets, es, i, e, ip)
    ensures PairLeft(cfg, forgets, es, i + k, e, pair - k * cfg.refill)
    ensures IpLeft(cfg, forgets, es, i + k, e, ip - k * cfg.IpCost())
    ensures forall n: nat | i <= n < i + k :: CountsOn(cfg, forgets, es, PairOf(e), n)
    decreases k
  {
    if k > 0 {
      OneLess(k, cfg.refill);
      OneLess(k, cfg.IpCost());
      BurstStep(cfg, forgets, es, i, e, pair, ip);
      BurstAdmitted(cfg, forgets, es, i + 1, k - 1, e, pair - cfg.refill, ip - cfg.IpCost());
    }
  }

  lemma BurstStep<K(!new)>(cfg: Config, forgets: bool, es: seq<Event<K>>, n: nat, e: Event<K>, pair: int, ip: int)
    requires cfg.Valid() && Monotone(es) && e.Allow? && n < |es| && es[n] == e
    requires pair >= cfg.refill && ip >= cfg.IpCost()
    requires PairLeft(cfg, forgets, es, n, e, pair) && IpLeft(cfg, forgets, es, n, e, ip)
    ensures PairLeft(cfg, forgets, es, n + 1, e, pair - cfg.refill)
    ensures IpLeft(cfg, forgets, es, n + 1, e, ip - cfg.IpCost())
    ensures CountsOn(cfg, forgets, es, PairOf(e), n)
  {
    Pays(cfg, forgets, es, n, pair, ip);
  }

  lemma BurstCosts(cfg: Config)
    ensures cfg.IpCap() - cfg.burst * cfg.IpCost() == cfg.burst * cfg.IpCost()
    ensures cfg.burst * cfg.IpCost() >= 0
  {
    assert 2 * cfg.burst * cfg.IpCost() == 2 * (cfg.burst * cfg.IpCost());
  }

  /** What a key without entries, or with full buckets, can do at once. */
  lemma FullBurst<K(!new)>(cfg: Config, forgets: bool, es: seq<Event<K>>, i: nat, e: Event<K>)
    requires cfg.Valid() && Monotone(es) && e.Allow? && Repeats(es, i, cfg.burst, e)
    requires PairLeft(cfg, forgets, es, i, e, cfg.PairCap()) && IpLeft(cfg, forgets, es, i, e, cfg.IpCap())
    ensures PairLeft(cfg, forgets, es, i + cfg.burst, e, 0)
    ensures IpLeft(cfg, forgets, es, i + cfg.burst, e, cfg.burst * cfg.IpCost())
    ensures forall n: nat | i <= n < i + cfg.burst :: CountsOn(cfg, forgets, es, PairOf(e), n)
  {
    var pair, ip := cfg.burst * cfg.refill, cfg.burst * cfg.IpCost();
    assert cfg.PairCap() == pair;
    BurstCosts(cfg);
    BurstSpends(cfg, forgets, es, i, cfg.burst, e, pair, cfg.IpCap(), pair, ip);
  }

  /** The same with the two sums spent by name. */
  lemma BurstSpends<K(!new)>(cfg: Config, forgets: bool, es: seq<Event<K>>, i: nat, k: nat, e: Event<K>, pair: int,
                             ip: int, p: int, q: int)
    requires cfg.Valid() && Monotone(es) && e.Allow? && Repeats(es, i, k, e)
    requires p == k * cfg.refill && q == k * cfg.IpCost() && p <= pair && q <= ip
    requires PairLeft(cfg, forgets, es, i, e, pair) && IpLeft(cfg, forgets, es, i, e, ip)
    ensures PairLeft(cfg, forgets, es, i + k, e, pair - p) && IpLeft(cfg, forgets, es, i + k, e, ip - q)
    ensures forall n: nat | i <= n < i + k :: CountsOn(cfg, forgets, es, PairOf(e), n)
  {
    BurstAdmitted(cfg, forgets, es, i, k, e, pair, ip);
  }

  /** A key that nobody used has no entry. */
  lemma {:induction false} Untouched<K(!new)>(cfg: Config, forgets: bool, es: seq<Event<K>>, g: Gauge<K>, n: nat)
    requires n <= |es| && forall m | 0 <= m < n :: !g.UsedBy(es[m])
    ensures !g.Has(At(cfg, forgets, es, n))
  {
    if n > 0 {
      Untouched(cfg, forgets, es, g, n - 1);
      assert !g.UsedBy(es[n - 1]);
    }
  }

  /** A burst leaves the buckets that it does not use as they were. */
  lemma {:induction false} Bystander<K(!new)>(cfg: Config, forgets: bool, es: seq<Event<K>>, i: nat, k: nat,
                                              e: Event<K>, g: Gauge<K>, level: int)
    requires cfg.Valid() && Monotone(es) && e.Allow? && !g.UsedBy(e) && Repeats(es, i, k, e)
    requires Reads(cfg, forgets, es, i, g, e.now, level)
    ensures Reads(cfg, forgets, es, i + k, g, e.now, level)
  {
    if k > 0 {
      Bystander(cfg, forgets, es, i, k - 1, e, g, level);
      StandsBy(cfg, forgets, es, i + k - 1, g, level);
    }
  }

  ghost predicate Reads<K(!new)>(cfg: Config, forgets: bool, es: seq<Event<K>>, n: nat, g: Gauge<K>, now: int,
                                 level: int)
    requires n <= |es|
  {
    g.Level(cfg, At(cfg, forgets, es, n), now) == level
  }

  lemma StandsBy<K(!new)>(cfg: Config, forgets: bool, es: seq<Event<K>>, n: nat, g: Gauge<K>, level: int)
    requires cfg.Valid() && Monotone(es) && n < |es| && es[n].Allow? && !g.UsedBy(es[n])
    requires Reads(cfg, forgets, es, n, g, es[n].now, level)
    ensures Reads(cfg, forgets, es, n + 1, g, es[n].now, level)
  {
    RunStep(cfg, forgets, es, n, g);
  }

  lemma {:induction false} AllAdmitted(rs: seq<Reading>, i: nat, j: nat)
    requires i <= j <= |rs| && forall n | i <= n < j :: rs[n].admitted
    ensures Admissions(rs, i, j) == j - i
    decreases j
  {
    if i < j {
      AllAdmitted(rs, i, j - 1);
    }
  }

  lemma {:induction false} SplitAdmissions(rs: seq<Reading>, i: nat, m: nat, j: nat)
    requires i <= m <= j <= |rs|
    ensures Admissions(rs, i, j) == Admissions(rs, i, m) + Admissions(rs, m, j)
    decreases j
  {
    if m < j {
      SplitAdmissions(rs, i, m, j - 1);
    }
  }

  /** If fewer than all readings but one were admitted, one of the others was not. */
  lemma SomeNotAdmitted(rs: seq<Reading>, but: nat) returns (n: nat)
    requires but < |rs| && Admissions(rs, 0, |rs|) < |rs| - 1
    ensures n < |rs| && n != but && !rs[n].admitted
  {
    if m: nat :| m < |rs| && m != but && !rs[m].admitted {
      n := m;
    } else {
      AllAdmitted(rs, 0, but);
      AllAdmitted(rs, but + 1, |rs|);
      SplitAdmissions(rs, 0, but + 1, |rs|);
      assert false;
    }
  }

  lemma SomeNotCounted<K(!new)>(cfg: Config, forgets: bool, es: seq<Event<K>>, g: Gauge<K>, but: nat) returns (n: nat)
    requires but < |es| && AdmittedIn(cfg, forgets, es, g, 0, |es|) < |es| - 1
    ensures n < |es| && n != but && !CountsOn(cfg, forgets, es, g, n)
  {
    n := SomeNotAdmitted(Readings(cfg, forgets, es, g), but);
  }
}

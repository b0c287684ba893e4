/** The two-level token bucket of the rate limiter, as values.

    A bucket is measured in nanoseconds of credit: it gains 1 per nanosecond, holds at most
    burst * interval and pays one interval per request, so that all arithmetic is exact.  The
    pair bucket has (burst, refill), the IP bucket (2 * burst, refill / 2), rounded down.

    The token bucket of the rate library cancels a reservation that already took effect only if
    its clock has not moved since; otherwise the token stays spent.  Each request therefore
    carries `exact`: whether the pair token came back when the IP bucket refused.
  */
module Limiter {
  const HOUR: int := 3_600_000_000_000

  datatype Config = Config(burst: nat, refill: nat) {
    /** At least one token, and an IP interval of at least one nanosecond. */
    ghost predicate Valid() {
      burst >= 1 && refill >= 2
    }

    function PairCap(): nat { burst * refill }

    function IpCost(): nat { refill / 2 }

    function IpCap(): nat { 2 * burst * IpCost() }
  }

  /** `credit` as of the instant `last`; `seen` is the entry's lastSeen. */
  datatype Entry = Entry(credit: int, last: int, seen: int)

  /** `K` is the key of the pair table; a string in `RateLimiter`, a true pair in `LimiterKeys`. */
  datatype State<K> = State(pairs: map<K, Entry>, ips: map<string, Entry>)

  datatype Verdict = Admitted | PairRefused(delay: int) | IpRefused(delay: int)

  datatype Event<K> =
    | Allow(pair: K, ip: string, now: int, exact: bool)
    | Sweep(now: int)

  function Min(a: int, b: int): int {
    if a < b then a else b
  }

  /** The credit of an entry at time `now`; a clock that went backwards earns nothing. */
  function Credit(e: Entry, cap: int, now: int): int {
    Min(cap, e.credit + if now > e.last then now - e.last else 0)
  }

  /** The credit behind a key; a key without an entry has a full bucket. */
  function Level<X>(table: map<X, Entry>, key: X, cap: int, now: int): int {
    if key in table then Credit(table[key], cap, now) else cap
  }

  /** What a request is told, from the credit of its two buckets. */
  function Judge(cfg: Config, pair: int, ip: int): Verdict {
    if pair < cfg.refill then PairRefused(cfg.refill - pair)
    else if ip < cfg.IpCost() then IpRefused(cfg.IpCost() - ip)
    else Admitted
  }

  function Answer<K>(cfg: Config, s: State<K>, e: Event<K>): Verdict
    requires e.Allow?
  {
    Judge(cfg, Level(s.pairs, e.pair, cfg.PairCap(), e.now), Level(s.ips, e.ip, cfg.IpCap(), e.now))
  }

  /** The pair entry after a request: reserved, and refunded or not. */
  function PairAfter<K>(cfg: Config, s: State<K>, e: Event<K>): Entry
    requires e.Allow?
  {
    var credit := Level(s.pairs, e.pair, cfg.PairCap(), e.now);
    match Answer(cfg, s, e)
    case Admitted => Entry(credit - cfg.refill, e.now, e.now)
    case PairRefused(_) => Entry(credit, e.now, e.now)
    case IpRefused(_) => Entry(if e.exact then credit else credit - cfg.refill, e.now, e.now)
  }

  /** The IP entry after a request; a request that the pair bucket refuses only touches it. */
  function IpAfter<K>(cfg: Config, s: State<K>, e: Event<K>): Entry
    requires e.Allow?
  {
    var credit := Level(s.ips, e.ip, cfg.IpCap(), e.now);
    match Answer(cfg, s, e)
    case Admitted => Entry(credit - cfg.IpCost(), e.now, e.now)
    case PairRefused(_) => if e.ip in s.ips then s.ips[e.ip].(seen := e.now) else Entry(cfg.IpCap(), e.now, e.now)
    case IpRefused(_) => Entry(credit, e.now, e.now)
  }

  /** The entries that a sweep at `now` keeps. */
  function Swept<X>(table: map<X, Entry>, now: int): map<X, Entry> {
    map k | k in table && now - table[k].seen <= HOUR :: table[k]
  }

  /** `forgets` is false for a limiter whose sweeps do nothing. */
  function Next<K>(cfg: Config, forgets: bool, s: State<K>, e: Event<K>): State<K> {
    match e
    case Allow(pair, ip, _, _) => State(s.pairs[pair := PairAfter(cfg, s, e)], s.ips[ip := IpAfter(cfg, s, e)])
    case Sweep(now) => if forgets then State(Swept(s.pairs, now), Swept(s.ips, now)) else s
  }

  /** The state before event `n` of a run that starts with no entries. */
  function At<K>(cfg: Config, forgets: bool, es: seq<Event<K>>, n: nat): State<K>
    requires n <= |es|
  {
    if n == 0 then State(map[], map[]) else Next(cfg, forgets, At(cfg, forgets, es, n - 1), es[n - 1])
  }

  function AnswerAt<K(==)>(cfg: Config, forgets: bool, es: seq<Event<K>>, n: nat): Verdict
    requires n < |es| && es[n].Allow?
  {
    Answer(cfg, At(cfg, forgets, es, n), es[n])
  }

  /** The clock of a run never goes backwards. */
  ghost predicate Monotone<K(!new)>(es: seq<Event<K>>) {
    forall i, j | 0 <= i < j < |es| :: es[i].now <= es[j].now
  }

  // ----- one view of both tables

  datatype Gauge<K(==)> = PairGauge(key: K) | IpGauge(ip: string) {
    function Cap(cfg: Config): int {
      match this case PairGauge(_) => cfg.PairCap() case IpGauge(_) => cfg.IpCap()
    }

    function Cost(cfg: Config): int {
      match this case PairGauge(_) => cfg.refill case IpGauge(_) => cfg.IpCost()
    }

    predicate Has(s: State<K>) {
      match this case PairGauge(k) => k in s.pairs case IpGauge(ip) => ip in s.ips
    }

    function Entry(s: State<K>): Entry
      requires Has(s)
    {
      match this case PairGauge(k) => s.pairs[k] case IpGauge(ip) => s.ips[ip]
    }

    predicate UsedBy(e: Event<K>) {
      e.Allow? && match this case PairGauge(k) => e.pair == k case IpGauge(ip) => e.ip == ip
    }

    function Level(cfg: Config, s: State<K>, now: int): int {
      if Has(s) then Credit(Entry(s), Cap(cfg), now) else Cap(cfg)
    }
  }

  function PairOf<K(==)>(e: Event<K>): Gauge<K>
    requires e.Allow?
  {
    PairGauge(e.pair)
  }

  function IpOf<K(==)>(e: Event<K>): Gauge<K>
    requires e.Allow?
  {
    IpGauge(e.ip)
  }

  // ----- every entry is sound

  ghost predicate EntryOk(e: Entry, cap: int, now: int) {
    0 <= e.credit <= cap && e.last <= e.seen <= now
  }

  /** Credit never negative, and never dated after the entry was last seen. */
  ghost predicate Sound<K(!new)>(cfg: Config, s: State<K>, now: int) {
    forall g: Gauge<K> | g.Has(s) :: EntryOk(g.Entry(s), g.Cap(cfg), now)
  }

  lemma CapsCoverCosts(cfg: Config)
    requires cfg.Valid()
    ensures 1 <= cfg.IpCost() <= cfg.IpCap() && cfg.refill <= cfg.PairCap() && cfg.IpCap() <= cfg.PairCap()
  {
    assert cfg.PairCap() == cfg.refill + (cfg.burst - 1) * cfg.refill;
    assert cfg.IpCap() == cfg.burst * (2 * cfg.IpCost());
    assert cfg.burst * (2 * cfg.IpCost()) <= cfg.burst * cfg.refill;
    assert cfg.IpCap() == 2 * cfg.IpCost() + (cfg.burst - 1) * (2 * cfg.IpCost());
  }

  lemma StepSound<K(!new)>(cfg: Config, forgets: bool, s: State<K>, e: Event<K>, before: int)
    requires cfg.Valid() && Sound(cfg, s, before) && before <= e.now
    ensures Sound(cfg, Next(cfg, forgets, s, e), e.now)
  {
    CapsCoverCosts(cfg);
    var s' := Next(cfg, forgets, s, e);
    forall g: Gauge<K> | g.Has(s') ensures EntryOk(g.Entry(s'), g.Cap(cfg), e.now) {
      if g.Has(s) {
        assert EntryOk(g.Entry(s), g.Cap(cfg), before);
      }
      if e.Allow? {
        assert IpOf(e).Has(s) ==> EntryOk(IpOf(e).Entry(s), cfg.IpCap(), before);
        assert PairOf(e).Has(s) ==> EntryOk(PairOf(e).Entry(s), cfg.PairCap(), before);
      }
    }
  }

  lemma {:induction false} RunSound<K(!new)>(cfg: Config, forgets: bool, es: seq<Event<K>>, n: nat, now: int)
    requires cfg.Valid() && Monotone(es) && n <= |es| && (n > 0 ==> es[n - 1].now <= now)
    ensures Sound(cfg, At(cfg, forgets, es, n), now)
  {
    if n > 0 {
      var before := if n > 1 then es[n - 2].now else es[0].now;
      RunSound(cfg, forgets, es, n - 1, before);
      StepSound(cfg, forgets, At(cfg, forgets, es, n - 1), es[n - 1], before);
      var s := At(cfg, forgets, es, n);
      forall g: Gauge<K> | g.Has(s) ensures EntryOk(g.Entry(s), g.Cap(cfg), now) {
        assert EntryOk(g.Entry(s), g.Cap(cfg), es[n - 1].now);
      }
    }
  }

  // ----- how one event moves one gauge

  /** An hour without use fills every bucket: the condition under which sweeps are harmless. */
  predicate HourFills(cfg: Config) {
    cfg.PairCap() <= HOUR + 1
  }

  lemma LevelGains<K(!new)>(cfg: Config, s: State<K>, g: Gauge<K>, t: int, now: int)
    requires Sound(cfg, s, t) && t <= now && 0 <= g.Cap(cfg)
    ensures g.Level(cfg, s, now) == Min(g.Cap(cfg), g.Level(cfg, s, t) + (now - t))
    ensures 0 <= g.Level(cfg, s, t) <= g.Cap(cfg)
  {
    if g.Has(s) {
      assert EntryOk(g.Entry(s), g.Cap(cfg), t);
    }
  }

  /** A sweep forgets only buckets that are full by now. */
  lemma SweepKeepsLevels<K(!new)>(cfg: Config, s: State<K>, g: Gauge<K>, now: int)
    requires cfg.Valid() && Sound(cfg, s, now) && HourFills(cfg)
    ensures g.Level(cfg, State(Swept(s.pairs, now), Swept(s.ips, now)), now) == g.Level(cfg, s, now)
  {
    CapsCoverCosts(cfg);
    if g.Has(s) {
      assert EntryOk(g.Entry(s), g.Cap(cfg), now);
    }
  }

  /** The level of a gauge right after an event, from the levels right before it. */
  function LevelAfter<K(==)>(cfg: Config, g: Gauge<K>, e: Event<K>, pair: int, ip: int, own: int): int {
    if !g.UsedBy(e) then own
    else
      match Judge(cfg, pair, ip)
      case Admitted => own - g.Cost(cfg)
      case PairRefused(_) => own
      case IpRefused(_) => if g.PairGauge? && !e.exact then own - g.Cost(cfg) else own
  }

  lemma StepLevel<K(!new)>(cfg: Config, forgets: bool, s: State<K>, e: Event<K>, g: Gauge<K>)
    requires cfg.Valid() && Sound(cfg, s, e.now) && (forgets ==> HourFills(cfg))
    ensures var s' := Next(cfg, forgets, s, e);
      g.Level(cfg, s', e.now) ==
        if e.Sweep? then g.Level(cfg, s, e.now)
        else LevelAfter(cfg, g, e, PairOf(e).Level(cfg, s, e.now), IpOf(e).Level(cfg, s, e.now),
                        g.Level(cfg, s, e.now))
  {
    CapsCoverCosts(cfg);
    if e.Sweep? {
      if forgets {
        SweepKeepsLevels(cfg, s, g, e.now);
      }
    } else {
      LevelGains(cfg, s, g, e.now, e.now);
      if g.Has(s) {
        assert EntryOk(g.Entry(s), g.Cap(cfg), e.now);
      }
    }
  }

  lemma AnswerFromLevels<K(!new)>(cfg: Config, s: State<K>, e: Event<K>)
    requires e.Allow?
    ensures Answer(cfg, s, e)
         == Judge(cfg, PairOf(e).Level(cfg, s, e.now), IpOf(e).Level(cfg, s, e.now))
  {
  }

  // ----- the same, along a run

  lemma RunStep<K(!new)>(cfg: Config, forgets: bool, es: seq<Event<K>>, n: nat, g: Gauge<K>)
    requires cfg.Valid() && Monotone(es) && n < |es| && (forgets && es[n].Sweep? ==> HourFills(cfg))
    ensures var e, s := es[n], At(cfg, forgets, es, n);
      g.Level(cfg, At(cfg, forgets, es, n + 1), e.now) ==
        if e.Sweep? then g.Level(cfg, s, e.now)
        else LevelAfter(cfg, g, e, PairOf(e).Level(cfg, s, e.now), IpOf(e).Level(cfg, s, e.now), g.Level(cfg, s, e.now))
  {
    RunSound(cfg, forgets, es, n, es[n].now);
    StepLevel(cfg, forgets && es[n].Sweep?, At(cfg, forgets, es, n), es[n], g);
  }

  /** What waiting does to a gauge between two events. */
  lemma RunGains<K(!new)>(cfg: Config, forgets: bool, es: seq<Event<K>>, n: nat, g: Gauge<K>, t: int, now: int)
    requires cfg.Valid() && Monotone(es) && n <= |es| && (n > 0 ==> es[n - 1].now <= t) && t <= now
    ensures var s := At(cfg, forgets, es, n);
      && g.Level(cfg, s, now) == Min(g.Cap(cfg), g.Level(cfg, s, t) + (now - t))
      && 0 <= g.Level(cfg, s, t) <= g.Cap(cfg)
  {
    CapsCoverCosts(cfg);
    RunSound(cfg, forgets, es, n, t);
    LevelGains(cfg, At(cfg, forgets, es, n), g, t, now);
  }

  lemma RunAnswer<K(!new)>(cfg: Config, forgets: bool, es: seq<Event<K>>, n: nat)
    requires n < |es| && es[n].Allow?
    ensures var e, s := es[n], At(cfg, forgets, es, n);
      AnswerAt(cfg, forgets, es, n) == Judge(cfg, PairOf(e).Level(cfg, s, e.now), IpOf(e).Level(cfg, s, e.now))
  {
    AnswerFromLevels(cfg, At(cfg, forgets, es, n), es[n]);
  }
}

/** The rate limiter as the objects it is made of, refining the run of `Limiter`. */
module RateLimiter {
  import opened Limiter
  import LimiterKeys
  import LimiterRetry

  /** The token bucket of the rate library, in exact nanoseconds and with the instant given by
      the caller. */
  class TokenBucket {
    const cap: int
    const cost: int
    var credit: int
    var last: int

    constructor (cap: int, cost: int, now: int)
      ensures this.cap == cap && this.cost == cost && credit == cap && last == now
    {
      this.cap, this.cost, credit, last := cap, cost, cap, now;
    }

    function CreditAt(now: int): int
      reads this
    {
      Credit(Entry(credit, last, last), cap, now)
    }

    /** Takes one token now or promises it for `delay` nanoseconds later. */
    method Reserve(now: int) returns (delay: int)
      modifies this
      ensures credit == old(CreditAt(now)) - cost && last == now
      ensures delay == if credit < 0 then -credit else 0
    {
      credit := CreditAt(now) - cost;
      last := now;
      delay := if credit < 0 then -credit else 0;
    }

    /** Takes back a reservation; one that already took effect only if no time has passed. */
    method Cancel(delay: int, exact: bool)
      modifies this`credit
      ensures credit == if delay > 0 || exact then Min(cap, old(credit) + cost) else old(credit)
    {
      if delay > 0 || exact {
        credit := Min(cap, credit + cost);
      }
    }
  }

  class Bucket {
    const limiter: TokenBucket
    var lastSeen: int

    constructor (cap: int, cost: int, now: int)
      ensures fresh(limiter) && limiter.cap == cap && limiter.cost == cost
      ensures Value() == Entry(cap, now, now)
    {
      limiter := new TokenBucket(cap, cost, now);
      lastSeen := now;
    }

    function Value(): Entry
      reads this, limiter
    {
      Entry(limiter.credit, limiter.last, lastSeen)
    }
  }

  class RateLimiter {
    const cfg: Config
    var pairs: map<string, Bucket>
    var ipOnly: map<string, Bucket>
    ghost var Repr: set<object>

    ghost function Get(g: Gauge<string>): Bucket
      reads this
      requires Has(g)
    {
      match g case PairGauge(k) => pairs[k] case IpGauge(ip) => ipOnly[ip]
    }

    ghost predicate Has(g: Gauge<string>)
      reads this
    {
      match g case PairGauge(k) => k in pairs case IpGauge(ip) => ip in ipOnly
    }

    ghost predicate Owned(g: Gauge<string>)
      reads this
      requires Has(g)
    {
      && Get(g) in Repr && Get(g).limiter in Repr
      && Get(g).limiter.cap == g.Cap(cfg) && Get(g).limiter.cost == g.Cost(cfg)
    }

    ghost predicate Apart(g: Gauge<string>, h: Gauge<string>)
      reads this
      requires Has(g) && Has(h)
    {
      Get(g) != Get(h) && Get(g).limiter != Get(h).limiter
    }

    /** Every entry is an object of its own with a bucket of its own. */
    ghost predicate Valid()
      reads this
    {
      && cfg.Valid() && this !in Repr
      && (forall g | Has(g) :: Owned(g))
      && (forall g, h | Has(g) && Has(h) && g != h :: Apart(g, h))
    }

    ghost function Abs(): State<string>
      reads this, Repr
      requires Valid()
    {
      assert forall k <- pairs :: Has(PairGauge(k)) && Owned(PairGauge(k));
      assert forall k <- ipOnly :: Has(IpGauge(k)) && Owned(IpGauge(k));
      State(map k | k in pairs :: pairs[k].Value(), map k | k in ipOnly :: ipOnly[k].Value())
    }

    constructor (cfg: Config)
      requires cfg.Valid()
      ensures Valid() && fresh(Repr) && this.cfg == cfg && Abs() == State(map[], map[])
    {
      this.cfg, pairs, ipOnly, Repr := cfg, map[], map[], {};
    }

    /** `e` was put behind the free key `g`, and nothing else changed. */
    twostate predicate Added(g: Gauge<string>, new e: Bucket)
      reads this
    {
      && !old(Has(g)) && cfg.Valid()
      && Repr == old(Repr) + {e, e.limiter} && e !in old(Repr) && e.limiter !in old(Repr)
      && e.limiter.cap == g.Cap(cfg) && e.limiter.cost == g.Cost(cfg)
      && this as object != e && this as object != e.limiter
      && match g
         case PairGauge(k) => pairs == old(pairs)[k := e] && ipOnly == old(ipOnly)
         case IpGauge(ip) => ipOnly == old(ipOnly)[ip := e] && pairs == old(pairs)
    }

    twostate lemma AddedIsValid(g: Gauge<string>, new e: Bucket)
      requires old(Valid()) && Added(g, e)
      ensures Valid() && Has(g) && Get(g) == e
    {
      forall h | Has(h) ensures Owned(h) {
        assert h != g ==> old(Has(h) && Owned(h)) && Get(h) == old(Get(h));
      }
      forall h, i | Has(h) && Has(i) && h != i ensures Apart(h, i) {
        assert h != g ==> old(Has(h) && Owned(h)) && Get(h) == old(Get(h));
        assert i != g ==> old(Has(i) && Owned(i)) && Get(i) == old(Get(i));
        if h != g && i != g {
          assert old(Apart(h, i));
        }
      }
    }

    /** The key gets a new entry with a full bucket. */
    method Add(g: Gauge<string>, now: int)
      requires Valid() && !Has(g)
      modifies this
      ensures Valid() && fresh(Repr - old(Repr))
      ensures Abs() == Put(old(Abs()), g, Entry(g.Cap(cfg), now, now))
    {
      var e := new Bucket(g.Cap(cfg), g.Cost(cfg), now);
      label before:
      match g {
        case PairGauge(k) => pairs := pairs[k := e];
        case IpGauge(ip) => ipOnly := ipOnly[ip := e];
      }
      Repr := Repr + {e, e.limiter};
      AddedIsValid@before(g, e);
      AddedValue@before(g, e);
    }

    twostate lemma AddedValue(g: Gauge<string>, new e: Bucket)
      requires old(Valid()) && Valid() && Added(g, e) && unchanged(old(Repr))
      ensures Abs() == Put(old(Abs()), g, e.Value())
    {
      forall k | k in old(pairs) ensures k in pairs && pairs[k].Value() == old(pairs[k].Value()) {
        assert old(Has(PairGauge(k)) && Owned(PairGauge(k)));
      }
      forall k | k in old(ipOnly) ensures k in ipOnly && ipOnly[k].Value() == old(ipOnly[k].Value()) {
        assert old(Has(IpGauge(k)) && Owned(IpGauge(k)));
      }
    }

    /** Changes to one entry leave all others as they were. */
    twostate lemma OnlyOne(g: Gauge<string>)
      requires old(Valid()) && Valid() && unchanged(this) && Has(g)
      requires forall o <- Repr :: o == Get(g) || o == Get(g).limiter || unchanged(o)
      ensures Abs() == Put(old(Abs()), g, Get(g).Value())
    {
      forall k | k in pairs && PairGauge(k) != g ensures pairs[k].Value() == old(pairs[k].Value()) {
        assert Apart(PairGauge(k), g) && Owned(PairGauge(k));
      }
      forall k | k in ipOnly && IpGauge(k) != g ensures ipOnly[k].Value() == old(ipOnly[k].Value()) {
        assert Apart(IpGauge(k), g) && Owned(IpGauge(k));
      }
    }

    /** Finds the entry of a key, or adds one, and marks it as seen. */
    method Touch(g: Gauge<string>, now: int)
      requires Valid()
      modifies this, Repr
      ensures Valid() && fresh(Repr - old(Repr))
      ensures Abs() == Touched(cfg, old(Abs()), g, now)
    {
      var known := match g case PairGauge(k) => k in pairs case IpGauge(ip) => ip in ipOnly;
      if known {
        assert Owned(g);
        var e := match g case PairGauge(k) => pairs[k] case IpGauge(ip) => ipOnly[ip];
        e.lastSeen := now;
        OnlyOne(g);
      } else {
        Add(g, now);
      }
    }

    method Reserve(g: Gauge<string>, now: int) returns (delay: int)
      requires Valid() && g.Has(Abs())
      modifies Repr
      ensures Valid()
      ensures Abs() == Reserved(cfg, old(Abs()), g, now)
      ensures delay == WaitFor(cfg, old(Abs()), g, now)
    {
      assert Owned(g);
      var e := match g case PairGauge(k) => pairs[k] case IpGauge(ip) => ipOnly[ip];
      delay := e.limiter.Reserve(now);
      OnlyOne(g);
    }

    method Cancel(g: Gauge<string>, delay: int, exact: bool)
      requires Valid() && g.Has(Abs())
      modifies Repr
      ensures Valid()
      ensures Abs() == Cancelled(cfg, old(Abs()), g, delay, exact)
    {
      assert Owned(g);
      var e := match g case PairGauge(k) => pairs[k] case IpGauge(ip) => ipOnly[ip];
      e.limiter.Cancel(delay, exact);
      OnlyOne(g);
    }

    /** Both reservations, and what is taken back when one of them has to wait. */
    method Spend(pair: Gauge<string>, single: Gauge<string>, now: int, exact: bool) returns (delay: int)
      requires Valid() && pair.Has(Abs()) && single.Has(Abs())
      modifies Repr
      ensures Valid()
      ensures Abs() == Spent(cfg, old(Abs()), pair, single, now, exact)
      ensures delay == SpendDelay(cfg, old(Abs()), pair, single, now)
    {
      delay := Reserve(pair, now);
      if delay > 0 {
        Cancel(pair, delay, exact);
        return;
      }
      delay := Reserve(single, now);
      if delay > 0 {
        Cancel(pair, 0, exact);
        Cancel(single, delay, exact);
      }
    }

    /** Refines one `Allow` event: the answer, and every bucket afterwards. */
    method Allow(ip: string, cookieID: string, now: int, exact: bool) returns (allowed: bool, delay: int)
      requires Valid()
      modifies this, Repr
      ensures Valid() && fresh(Repr - old(Repr))
      ensures var e := Event.Allow(LimiterKeys.PairKey(ip, cookieID), ip, now, exact);
        && Abs() == Next(cfg, true, old(Abs()), e)
        && allowed == Answer(cfg, old(Abs()), e).Admitted?
        && delay == LimiterRetry.Delay(Answer(cfg, old(Abs()), e))
    {
      AllowInSteps(cfg, Abs(), ip, cookieID, now, exact);
      var pair, single := PairGauge(ip + ":" + cookieID), IpGauge(ip);
      Touch(pair, now);
      Touch(single, now);
      delay := Spend(pair, single, now, exact);
      allowed := delay == 0;
    }

    /** One tick of the eviction goroutine: refines one `Sweep` event. */
    method EvictStaleEntries(now: int)
      requires Valid()
      modifies this`pairs, this`ipOnly
      ensures Valid() && Abs() == Next(cfg, true, old(Abs()), Sweep(now))
    {
      var keptPairs := DropStale(pairs, now);
      var keptIps := DropStale(ipOnly, now);
      pairs, ipOnly := keptPairs, keptIps;
      FewerIsValid();
      FewerValue(now);
    }

    twostate lemma FewerValue(now: int)
      requires old(Valid()) && Valid() && Repr == old(Repr) && unchanged(old(Repr))
      requires forall k :: k in pairs <==> k in old(pairs) && now - old(pairs[k].lastSeen) <= HOUR
      requires forall k :: k in ipOnly <==> k in old(ipOnly) && now - old(ipOnly[k].lastSeen) <= HOUR
      requires forall k <- pairs :: pairs[k] == old(pairs[k])
      requires forall k <- ipOnly :: ipOnly[k] == old(ipOnly[k])
      ensures Abs().pairs == Swept(old(Abs()).pairs, now)
      ensures Abs().ips == Swept(old(Abs()).ips, now)
    {
      forall k | k in pairs ensures pairs[k].Value() == old(pairs[k].Value()) {
        assert Has(PairGauge(k)) && Owned(PairGauge(k));
      }
      forall k | k in ipOnly ensures ipOnly[k].Value() == old(ipOnly[k].Value()) {
        assert Has(IpGauge(k)) && Owned(IpGauge(k));
      }
    }

    /** Deleting entries disturbs none of the others. */
    twostate lemma FewerIsValid()
      requires old(Valid()) && Repr == old(Repr)
      requires forall k <- pairs :: k in old(pairs) && pairs[k] == old(pairs[k])
      requires forall k <- ipOnly :: k in old(ipOnly) && ipOnly[k] == old(ipOnly[k])
      ensures Valid()
    {
      forall g | Has(g) ensures Owned(g) {
        assert old(Has(g) && Owned(g)) && Get(g) == old(Get(g));
      }
      forall g, h | Has(g) && Has(h) && g != h ensures Apart(g, h) {
        assert old(Apart(g, h));
      }
    }

    /** The loop over one table: keeps the entries seen within the hour. */
    method DropStale(table: map<string, Bucket>, now: int) returns (kept: map<string, Bucket>)
      ensures forall k :: k in kept <==> k in table && now - table[k].lastSeen <= HOUR
      ensures forall k <- kept :: kept[k] == table[k]
    {
      kept := table;
      var rest := table.Keys;
      while rest != {}
        invariant rest <= table.Keys
        invariant forall k :: k in kept <==> k in table && (k in rest || now - table[k].lastSeen <= HOUR)
        invariant forall k <- kept :: kept[k] == table[k]
        decreases |rest|
      {
        var k :| k in rest;
        if now - table[k].lastSeen > HOUR {
          kept := kept - {k};
        }
        rest := rest - {k};
      }
    }
  }

  // ----- the effect of each call, as values

  function Put(s: State<string>, g: Gauge<string>, e: Entry): State<string> {
    match g
    case PairGauge(k) => s.(pairs := s.pairs[k := e])
    case IpGauge(ip) => s.(ips := s.ips[ip := e])
  }

  function Touched(cfg: Config, s: State<string>, g: Gauge<string>, now: int): State<string> {
    Put(s, g, if g.Has(s) then g.Entry(s).(seen := now) else Entry(g.Cap(cfg), now, now))
  }

  function Reserved(cfg: Config, s: State<string>, g: Gauge<string>, now: int): State<string>
    requires g.Has(s)
  {
    Put(s, g, g.Entry(s).(credit := Credit(g.Entry(s), g.Cap(cfg), now) - g.Cost(cfg), last := now))
  }

  function WaitFor(cfg: Config, s: State<string>, g: Gauge<string>, now: int): int
    requires g.Has(s)
  {
    var credit := Credit(g.Entry(s), g.Cap(cfg), now);
    if credit < g.Cost(cfg) then g.Cost(cfg) - credit else 0
  }

  function Cancelled(cfg: Config, s: State<string>, g: Gauge<string>, delay: int, exact: bool): State<string>
    requires g.Has(s)
  {
    if delay > 0 || exact then Put(s, g, g.Entry(s).(credit := Min(g.Cap(cfg), g.Entry(s).credit + g.Cost(cfg)))) else s
  }

  function Spent(cfg: Config, s: State<string>, pair: Gauge<string>, single: Gauge<string>, now: int,
                 exact: bool): State<string>
    requires pair.Has(s) && single.Has(s)
  {
    var wait, s' := WaitFor(cfg, s, pair, now), Reserved(cfg, s, pair, now);
    if wait > 0 then Cancelled(cfg, s', pair, wait, exact)
    else
      var wait', s'' := WaitFor(cfg, s', single, now), Reserved(cfg, s', single, now);
      if wait' > 0 then Cancelled(cfg, Cancelled(cfg, s'', pair, 0, exact), single, wait', exact) else s''
  }

  function SpendDelay(cfg: Config, s: State<string>, pair: Gauge<string>, single: Gauge<string>, now: int): int
    requires pair.Has(s) && single.Has(s)
  {
    var wait := WaitFor(cfg, s, pair, now);
    if wait > 0 then wait else WaitFor(cfg, Reserved(cfg, s, pair, now), single, now)
  }

  /** After both touches the two entries hold the levels that the answer is judged by. */
  lemma TouchedLevels(cfg: Config, s: State<string>, pair: string, ip: string, now: int)
    ensures var s' := Touched(cfg, Touched(cfg, s, PairGauge(pair), now), IpGauge(ip), now);
      && pair in s'.pairs && ip in s'.ips
      && s' == State(s.pairs[pair := s'.pairs[pair]], s.ips[ip := s'.ips[ip]])
      && Credit(s'.pairs[pair], cfg.PairCap(), now) == Level(s.pairs, pair, cfg.PairCap(), now)
      && Credit(s'.ips[ip], cfg.IpCap(), now) == Level(s.ips, ip, cfg.IpCap(), now)
      && s'.pairs[pair].seen == now
      && s'.ips[ip] == if ip in s.ips then s.ips[ip].(seen := now) else Entry(cfg.IpCap(), now, now)
  {
  }

  /** What spending leaves behind two entries, in terms of their levels. */
  lemma SpentLevels(cfg: Config, s: State<string>, pair: string, ip: string, now: int, exact: bool)
    requires pair in s.pairs && ip in s.ips
    ensures var p, q := Credit(s.pairs[pair], cfg.PairCap(), now), Credit(s.ips[ip], cfg.IpCap(), now);
      var entry, ipEntry := s.pairs[pair].(credit := p, last := now), s.ips[ip].(credit := q, last := now);
      && SpendDelay(cfg, s, PairGauge(pair), IpGauge(ip), now) == LimiterRetry.Delay(Judge(cfg, p, q))
      && Spent(cfg, s, PairGauge(pair), IpGauge(ip), now, exact) ==
         match Judge(cfg, p, q)
         case Admitted =>
           State(s.pairs[pair := entry.(credit := p - cfg.refill)], s.ips[ip := ipEntry.(credit := q - cfg.IpCost())])
         case PairRefused(_) => State(s.pairs[pair := entry], s.ips)
         case IpRefused(_) =>
           State(s.pairs[pair := if exact then entry else entry.(credit := p - cfg.refill)], s.ips[ip := ipEntry])
  {
  }

  /** Two touches, one or two reservations and their cancellations make up one request. */
  lemma AllowInSteps(cfg: Config, s: State<string>, ip: string, cookieID: string, now: int, exact: bool)
    ensures var e, pair, single := Event.Allow(LimiterKeys.PairKey(ip, cookieID), ip, now, exact),
                                   PairGauge(ip + ":" + cookieID), IpGauge(ip);
      var s' := Touched(cfg, Touched(cfg, s, pair, now), single, now);
      && Next(cfg, true, s, e) == Spent(cfg, s', pair, single, now, exact)
      && LimiterRetry.Delay(Answer(cfg, s, e)) == SpendDelay(cfg, s', pair, single, now)
      && (Answer(cfg, s, e).Admitted? <==> SpendDelay(cfg, s', pair, single, now) == 0)
  {
    var key := ip + ":" + cookieID;
    TouchedLevels(cfg, s, key, ip, now);
    var s' := Touched(cfg, Touched(cfg, s, PairGauge(key), now), IpGauge(ip), now);
    SpentLevels(cfg, s', key, ip, now, exact);
  }
}

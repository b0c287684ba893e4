/** A client that waits the whole seconds of the Retry-After header, which undershoot the delay by
    less than a second. */
module LimiterHeader {
  import opened Limiter
  import opened LimiterRetry

  /** Request `j` is the client's next one after `i`, no sooner than the header of `i` said. */
  ghost predicate WaitsHeader<K(!new)>(cfg: Config, forgets: bool, es: seq<Event<K>>, i: nat, j: nat) {
    Returns(es, i, j) && es[j].now >= es[i].now + RetrySeconds(Delay(AnswerAt(cfg, forgets, es, i))) * SECOND
  }

  /** The requests of one client that obeys every header and is refused every time. */
  ghost predicate Refusals<K(!new)>(cfg: Config, forgets: bool, es: seq<Event<K>>, asks: seq<nat>) {
    && (forall k: nat | k < |asks| ::
          asks[k] < |es| && es[asks[k]].Allow? && !AnswerAt(cfg, forgets, es, asks[k]).Admitted?)
    && forall k: nat | k + 1 < |asks| :: WaitsHeader(cfg, forgets, es, asks[k], asks[k + 1])
  }

  // ----- how far a client is from being admitted

  /** Header-obeying waits until `level` covers `cost`. */
  function Short(level: int, cost: int): (waits: nat)
    ensures waits <= 2
  {
    if level >= cost then 0 else if cost - level <= SECOND then 1 else 2
  }

  function PairShort<K(==)>(cfg: Config, forgets: bool, es: seq<Event<K>>, n: nat): nat
    requires n < |es| && es[n].Allow?
  {
    Short(PairLevel(cfg, forgets, es, n), cfg.refill)
  }

  function IpShort<K(==)>(cfg: Config, forgets: bool, es: seq<Event<K>>, n: nat): nat
    requires n < |es| && es[n].Allow?
  {
    Short(IpLevel(cfg, forgets, es, n), cfg.IpCost())
  }

  lemma HeaderGains(cap: int, cost: int, level: int, level': int, dt: int)
    requires cost <= cap && level' >= Waited(cap, level, dt) && dt >= SECOND
    requires level < cost ==> dt >= RetrySeconds(cost - level) * SECOND
    ensures Short(level', cost) <= if Short(level, cost) > 0 then Short(level, cost) - 1 else 0
  {
  }

  lemma TimeGains(cap: int, cost: int, level: int, level': int, dt: int)
    requires cost <= cap && level' >= Waited(cap, level, dt) && dt >= SECOND
    ensures Short(level', cost) <= Short(level, cost)
    ensures Short(level, cost) == 1 ==> Short(level', cost) == 0
  {
  }

  // ----- with exact refunds

  /** Waits for the pair bucket, then for the IP bucket. */
  function Stage(pair: nat, ip: nat): nat {
    if pair > 0 then 2 + pair else ip
  }

  lemma WaitLowers<K(!new)>(cfg: Config, forgets: bool, es: seq<Event<K>>, i: nat, j: nat)
    requires cfg.Valid() && Monotone(es) && WaitsHeader(cfg, forgets, es, i, j) && es[i].exact
    requires !AnswerAt(cfg, forgets, es, i).Admitted?
    ensures Stage(PairShort(cfg, forgets, es, j), IpShort(cfg, forgets, es, j))
          < Stage(PairShort(cfg, forgets, es, i), IpShort(cfg, forgets, es, i))
  {
    WaitShortens(cfg, forgets, es, i, j);
  }

  /** What one obeyed header does to both shortages. */
  lemma WaitShortens<K(!new)>(cfg: Config, forgets: bool, es: seq<Event<K>>, i: nat, j: nat)
    requires cfg.Valid() && Monotone(es) && WaitsHeader(cfg, forgets, es, i, j)
    requires !AnswerAt(cfg, forgets, es, i).Admitted?
    ensures var p, q := PairShort(cfg, forgets, es, i), IpShort(cfg, forgets, es, i);
        var p', q' := PairShort(cfg, forgets, es, j), IpShort(cfg, forgets, es, j);
      && p + q > 0
      && (p > 0 ==> p' < p && q' <= q && (q == 1 ==> q' == 0))
      && (p == 0 ==> q' < q && (es[i].exact ==> p' == 0))
  {
    CapsCoverCosts(cfg);
    AnswerByLevels(cfg, forgets, es, i);
    LevelsOnReturn(cfg, forgets, es, i, j);
    var pair, ip, dt := PairLevel(cfg, forgets, es, i), IpLevel(cfg, forgets, es, i), es[j].now - es[i].now;
    assert dt >= SECOND;
    if pair < cfg.refill {
      HeaderGains(cfg.PairCap(), cfg.refill, pair, PairLevel(cfg, forgets, es, j), dt);
      TimeGains(cfg.IpCap(), cfg.IpCost(), ip, IpLevel(cfg, forgets, es, j), dt);
    } else {
      HeaderGains(cfg.IpCap(), cfg.IpCost(), ip, IpLevel(cfg, forgets, es, j), dt);
      if es[i].exact {
        TimeGains(cfg.PairCap(), cfg.refill, pair, PairLevel(cfg, forgets, es, j), dt);
      }
    }
  }

  lemma RefusedIsShort<K(!new)>(cfg: Config, forgets: bool, es: seq<Event<K>>, n: nat)
    requires n < |es| && es[n].Allow? && !AnswerAt(cfg, forgets, es, n).Admitted?
    ensures PairShort(cfg, forgets, es, n) + IpShort(cfg, forgets, es, n) > 0
  {
    AnswerByLevels(cfg, forgets, es, n);
  }

  lemma {:induction false} StageFalls<K(!new)>(cfg: Config, forgets: bool, es: seq<Event<K>>, asks: seq<nat>, k: nat)
    requires cfg.Valid() && Monotone(es) && Refusals(cfg, forgets, es, asks) && k < |asks|
    requires forall m: nat | m < |asks| :: es[asks[m]].exact
    ensures Stage(PairShort(cfg, forgets, es, asks[k]), IpShort(cfg, forgets, es, asks[k])) + k <= 4
  {
    if k > 0 {
      StageFalls(cfg, forgets, es, asks, k - 1);
      WaitLowers(cfg, forgets, es, asks[k - 1], asks[k]);
    }
  }

  /** With exact refunds a client that obeys every header is refused at most four times in a
      row: four such waits suffice. */
  lemma FourHeaderWaitsSuffice<K(!new)>(cfg: Config, forgets: bool, es: seq<Event<K>>, asks: seq<nat>)
    requires cfg.Valid() && Monotone(es) && Refusals(cfg, forgets, es, asks)
    requires forall k: nat | k < |asks| :: es[asks[k]].exact
    ensures |asks| <= 4
  {
    if asks != [] {
      StageFalls(cfg, forgets, es, asks, |asks| - 1);
      RefusedIsShort(cfg, forgets, es, asks[|asks| - 1]);
    }
  }

  // ----- when refunds may be lost

  /** Waits left when each refusal by the IP bucket may cost a pair token. */
  function LossyStage(pair: nat, ip: nat): nat {
    if ip == 0 then pair
    else if ip == 1 then (if pair == 0 then 3 else pair)
    else 4 + pair
  }

  lemma WaitLowersLossy<K(!new)>(cfg: Config, forgets: bool, es: seq<Event<K>>, i: nat, j: nat)
    requires cfg.Valid() && Monotone(es) && WaitsHeader(cfg, forgets, es, i, j)
    requires !AnswerAt(cfg, forgets, es, i).Admitted?
    ensures LossyStage(PairShort(cfg, forgets, es, j), IpShort(cfg, forgets, es, j))
          < LossyStage(PairShort(cfg, forgets, es, i), IpShort(cfg, forgets, es, i))
  {
    WaitShortens(cfg, forgets, es, i, j);
  }

  lemma {:induction false} LossyStageFalls<K(!new)>(cfg: Config, forgets: bool, es: seq<Event<K>>, asks: seq<nat>,
                                                    k: nat)
    requires cfg.Valid() && Monotone(es) && Refusals(cfg, forgets, es, asks) && k < |asks|
    ensures LossyStage(PairShort(cfg, forgets, es, asks[k]), IpShort(cfg, forgets, es, asks[k])) + k <= 6
  {
    if k > 0 {
      LossyStageFalls(cfg, forgets, es, asks, k - 1);
      WaitLowersLossy(cfg, forgets, es, asks[k - 1], asks[k]);
    }
  }

  /** Whatever refunds are lost, six such waits suffice. */
  lemma SixHeaderWaitsAlwaysSuffice<K(!new)>(cfg: Config, forgets: bool, es: seq<Event<K>>, asks: seq<nat>)
    requires cfg.Valid() && Monotone(es) && Refusals(cfg, forgets, es, asks)
    ensures |asks| <= 6
  {
    if asks != [] {
      LossyStageFalls(cfg, forgets, es, asks, |asks| - 1);
      RefusedIsShort(cfg, forgets, es, asks[|asks| - 1]);
    }
  }
}

/** Which keys the rate limiter remembers, told by the requests and the sweeps alone. */
module LimiterEntries {
  import opened Limiter

  /** The latest request on the gauge before event `n` was `m`, and no sweep since found it idle for
      more than an hour. */
  ghost predicate LiveSince<K(!new)>(es: seq<Event<K>>, n: nat, g: Gauge<K>, m: nat) {
    && m < n <= |es| && g.UsedBy(es[m])
    && forall k: nat | m < k < n ::
         !g.UsedBy(es[k]) && (es[k].Sweep? ==> es[k].now - es[m].now <= 3_600_000_000_000)
  }

  lemma UsedNow<K(!new)>(cfg: Config, es: seq<Event<K>>, n: nat, g: Gauge<K>)
    requires n < |es| && g.UsedBy(es[n])
    ensures g.Has(At(cfg, true, es, n + 1)) && g.Entry(At(cfg, true, es, n + 1)).seen == es[n].now
    ensures LiveSince(es, n + 1, g, n)
  {
  }

  lemma NotUsedNow<K(!new)>(cfg: Config, es: seq<Event<K>>, n: nat, g: Gauge<K>)
    requires n < |es| && !g.UsedBy(es[n])
    ensures var s, s' := At(cfg, true, es, n), At(cfg, true, es, n + 1);
      && (g.Has(s') <==> g.Has(s) && (es[n].Sweep? ==> es[n].now - g.Entry(s).seen <= 3_600_000_000_000))
      && (g.Has(s') ==> g.Entry(s') == g.Entry(s))
  {
  }

  /** A key has an entry exactly as long as it was not found idle for more than an hour after its
      latest request, whether that was admitted or refused; the entry remembers that request. */
  lemma {:induction false} EntriesExactly<K(!new)>(cfg: Config, es: seq<Event<K>>, n: nat, g: Gauge<K>)
    requires n <= |es|
    ensures g.Has(At(cfg, true, es, n)) <==> exists m: nat :: LiveSince(es, n, g, m)
    ensures forall m: nat | LiveSince(es, n, g, m) && g.Has(At(cfg, true, es, n)) ::
      g.Entry(At(cfg, true, es, n)).seen == es[m].now
  {
    if n > 0 {
      EntriesExactly(cfg, es, n - 1, g);
      if g.UsedBy(es[n - 1]) {
        UsedNow(cfg, es, n - 1, g);
        assert forall m: nat :: LiveSince(es, n, g, m) ==> m == n - 1;
      } else {
        NotUsedNow(cfg, es, n - 1, g);
        forall m: nat
          ensures LiveSince(es, n, g, m) <==>
            (LiveSince(es, n - 1, g, m) && (es[n - 1].Sweep? ==> es[n - 1].now - es[m].now <= 3_600_000_000_000))
        {
          LiveOn(es, n - 1, g, m);
        }
      }
    }
  }

  lemma LiveOn<K(!new)>(es: seq<Event<K>>, n: nat, g: Gauge<K>, m: nat)
    requires n < |es| && !g.UsedBy(es[n])
    ensures LiveSince(es, n + 1, g, m) <==>
      (LiveSince(es, n, g, m) && (es[n].Sweep? ==> es[n].now - es[m].now <= 3_600_000_000_000))
  {
    if LiveSince(es, n, g, m) && (es[n].Sweep? ==> es[n].now - es[m].now <= 3_600_000_000_000) {
      forall k: nat | m < k < n + 1
        ensures !g.UsedBy(es[k]) && (es[k].Sweep? ==> es[k].now - es[m].now <= 3_600_000_000_000)
      {
      }
    }
  }
}

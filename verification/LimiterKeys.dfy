/** The string keys of the pair table. */
module LimiterKeys {
  import opened Limiter

  /** A request as the handler makes it, or a sweep. */
  datatype Request = Ask(ip: string, cookie: string, now: int, exact: bool) | Clean(now: int)

  function PairKey(ip: string, cookie: string): string {
    ip + ":" + cookie
  }

  function Keyed(r: Request): Event<string> {
    match r
    case Ask(ip, cookie, now, exact) => Allow(PairKey(ip, cookie), ip, now, exact)
    case Clean(now) => Sweep(now)
  }

  function Paired(r: Request): Event<(string, string)> {
    match r
    case Ask(ip, cookie, now, exact) => Allow((ip, cookie), ip, now, exact)
    case Clean(now) => Sweep(now)
  }

  function KeyedRun(rs: seq<Request>): seq<Event<string>> {
    seq(|rs|, n requires 0 <= n < |rs| => Keyed(rs[n]))
  }

  function PairedRun(rs: seq<Request>): seq<Event<(string, string)>> {
    seq(|rs|, n requires 0 <= n < |rs| => Paired(rs[n]))
  }

  lemma LastColon(ip: string, cookie: string, ip': string, cookie': string)
    requires ':' !in cookie && PairKey(ip, cookie) == PairKey(ip', cookie')
    ensures |ip'| <= |ip|
  {
    var key := PairKey(ip, cookie);
    forall k | |ip| < k < |key| ensures key[k] != ':' {
      assert key[k] == cookie[k - |ip| - 1];
    }
    assert key[|ip'|] == ':';
  }

  /** The last colon of a key is the separator, however many colons the IP has. */
  lemma KeysNeverCollide(ip: string, cookie: string, ip': string, cookie': string)
    requires ':' !in cookie && ':' !in cookie' && PairKey(ip, cookie) == PairKey(ip', cookie')
    ensures ip == ip' && cookie == cookie'
  {
    var key := PairKey(ip, cookie);
    LastColon(ip, cookie, ip', cookie');
    LastColon(ip', cookie', ip, cookie);
    assert key[..|ip|] == ip && key[..|ip'|] == ip';
    assert key[|ip| + 1..] == cookie && key[|ip'| + 1..] == cookie';
  }

  ghost predicate Matches(s: State<string>, a: State<(string, string)>) {
    && s.ips == a.ips
    && forall ip: string, cookie: string | ':' !in cookie :: SameEntry(s, a, ip, cookie)
  }

  ghost predicate SameEntry(s: State<string>, a: State<(string, string)>, ip: string, cookie: string) {
    && (PairKey(ip, cookie) in s.pairs <==> (ip, cookie) in a.pairs)
    && (PairKey(ip, cookie) in s.pairs ==> s.pairs[PairKey(ip, cookie)] == a.pairs[(ip, cookie)])
  }

  lemma StepMatches(cfg: Config, forgets: bool, s: State<string>, a: State<(string, string)>, r: Request)
    requires Matches(s, a) && (r.Ask? ==> ':' !in r.cookie)
    ensures Matches(Next(cfg, forgets, s, Keyed(r)), Next(cfg, forgets, a, Paired(r)))
    ensures r.Ask? ==> Answer(cfg, s, Keyed(r)) == Answer(cfg, a, Paired(r))
  {
    var s', a' := Next(cfg, forgets, s, Keyed(r)), Next(cfg, forgets, a, Paired(r));
    if r.Ask? {
      assert SameEntry(s, a, r.ip, r.cookie);
    }
    forall ip: string, cookie: string | ':' !in cookie ensures SameEntry(s', a', ip, cookie) {
      assert SameEntry(s, a, ip, cookie);
      if r.Ask? && PairKey(ip, cookie) == PairKey(r.ip, r.cookie) {
        KeysNeverCollide(ip, cookie, r.ip, r.cookie);
      }
    }
  }

  lemma {:induction false} RunMatches(cfg: Config, forgets: bool, rs: seq<Request>, n: nat)
    requires n <= |rs| && forall r <- rs | r.Ask? :: ':' !in r.cookie
    ensures Matches(At(cfg, forgets, KeyedRun(rs), n), At(cfg, forgets, PairedRun(rs), n))
  {
    if n > 0 {
      RunMatches(cfg, forgets, rs, n - 1);
      assert rs[n - 1] in rs;
      StepMatches(cfg, forgets, At(cfg, forgets, KeyedRun(rs), n - 1), At(cfg, forgets, PairedRun(rs), n - 1),
                  rs[n - 1]);
    }
  }

  /** While no cookie id contains a colon, the table keyed by strings answers every request of
      every run like a table keyed by true (ip, cookie) pairs. */
  lemma StringKeysRefinePairs(cfg: Config, forgets: bool, rs: seq<Request>, n: nat)
    requires n < |rs| && rs[n].Ask? && forall r <- rs | r.Ask? :: ':' !in r.cookie
    ensures AnswerAt(cfg, forgets, KeyedRun(rs), n) == AnswerAt(cfg, forgets, PairedRun(rs), n)
  {
    RunMatches(cfg, forgets, rs, n);
    assert rs[n] in rs;
    StepMatches(cfg, forgets, At(cfg, forgets, KeyedRun(rs), n), At(cfg, forgets, PairedRun(rs), n), rs[n]);
  }

  /** With a colon in a cookie id two clients can share one bucket. */
  lemma ColonInCookieCollides(ip: string, cookie: string, suffix: string)
    ensures PairKey(ip, cookie + ":" + suffix) == PairKey(ip + ":" + cookie, suffix)
    ensures (ip, cookie + ":" + suffix) != (ip + ":" + cookie, suffix)
  {
    assert |ip + ":" + cookie| > |ip|;
  }
}

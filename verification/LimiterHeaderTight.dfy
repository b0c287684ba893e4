/** The bounds on header-obeying waits are the least ones: two runs that reach them. */
module LimiterHeaderTight {
  import opened Limiter
  import opened LimiterWindow
  import opened LimiterRetry
  import opened LimiterThirdWait
  import opened LimiterHeader

  const TENTH: int := SECOND / 10

  /** One token a minute for a pair, one every half minute for an IP. */
  const SLOW := Config(1, 600 * TENTH)

  function Again(now: int, exact: bool): Event<string> {
    Allow("a", "ip", now * TENTH, exact)
  }

  /** Cookie "a" empties its bucket, "b" and "c" empty the one of the IP. */
  ghost predicate Opening(es: seq<Event<string>>) {
    |es| > 3 && es[0] == Ask("a", 0) && es[1] == Ask("b", 340 * TENTH) && es[2] == Ask("c", 340 * TENTH)
  }

  /** From request `n` on "a" obeys every header; `exact` says whether the fourth of these requests
      gets its pair token back. */
  ghost predicate Persists(es: seq<Event<string>>, n: nat, exact: bool) {
    && n + 6 == |es| && Monotone(es)
    && es[n] == Again(585, true) && es[n + 1] == Again(595, true) && es[n + 2] == Again(605, true)
    && es[n + 3] == Again(635, exact) && es[n + 4] == Again(646, true) && es[n + 5] == Again(1226, true)
  }

  lemma PersistentClient(exact: bool) returns (es: seq<Event<string>>, n: nat)
    ensures n == 3 && Opening(es) && Persists(es, n, exact)
  {
    n := 3;
    es := [Ask("a", 0), Ask("b", 340 * TENTH), Ask("c", 340 * TENTH), Again(585, true), Again(595, true),
           Again(605, true), Again(635, exact), Again(646, true), Again(1226, true)];
  }

  /** The levels that request `n` of "a" finds. */
  ghost predicate Finds(forgets: bool, es: seq<Event<string>>, n: nat, pair: int, ip: int) {
    n < |es| && es[n].Allow? && PairLevel(SLOW, forgets, es, n) == pair && IpLevel(SLOW, forgets, es, n) == ip
  }

  lemma Caps()
    ensures SLOW.Valid() && SLOW.PairCap() == 600 * TENTH && SLOW.IpCap() == 600 * TENTH && SLOW.IpCost() == 300 * TENTH
  {
  }

  lemma FirstFinds(forgets: bool, es: seq<Event<string>>, n: nat)
    requires n == 3 && Opening(es) && Monotone(es) && es[n] == Again(585, true)
    ensures Finds(forgets, es, n, 585 * TENTH, 245 * TENTH)
  {
    Caps();
    AllDrained(forgets, es, 1, n);
    Refills(SLOW, forgets, es, n, PairGauge("a"), 340 * TENTH, 585 * TENTH, 340 * TENTH);
    Refills(SLOW, forgets, es, n, IpGauge("ip"), 340 * TENTH, 585 * TENTH, 0);
  }

  lemma AllDrained(forgets: bool, es: seq<Event<string>>, m: nat, n: nat)
    requires m == 1 && n == 3 && Opening(es) && Monotone(es)
    ensures Levels(SLOW, forgets, es, n, 340 * TENTH, 340 * TENTH, 0)
  {
    Caps();
    FullBurst(SLOW, forgets, es, 0, Ask("a", 0));
    Refills(SLOW, forgets, es, m, PairGauge("a"), 0, 340 * TENTH, 0);
    Refills(SLOW, forgets, es, m, IpGauge("ip"), 0, 340 * TENTH, 300 * TENTH);
    AfterNewcomer(SLOW, forgets, es, m, 1, "b", 340 * TENTH, 340 * TENTH, 600 * TENTH, 300 * TENTH);
    AfterNewcomer(SLOW, forgets, es, m + 1, 1, "c", 340 * TENTH, 340 * TENTH, 300 * TENTH, 0);
  }

  /** Request `n` is refused and the next one comes no sooner than its header said. */
  ghost predicate AsksAgain(forgets: bool, es: seq<Event<string>>, n: nat) {
    && n + 1 < |es| && es[n].Allow? && !AnswerAt(SLOW, forgets, es, n).Admitted?
    && WaitsHeader(SLOW, forgets, es, n, n + 1)
  }

  /** A refused request, and what the next one finds. */
  lemma Refused(forgets: bool, es: seq<Event<string>>, n: nat, pair: int, ip: int, v: Verdict, wait: int)
    requires Monotone(es) && Finds(forgets, es, n, pair, ip) && n + 1 < |es| && SameClient(es[n], es[n + 1])
    requires v == Judge(SLOW, pair, ip) && !v.Admitted? && wait == es[n + 1].now - es[n].now
    requires wait >= RetrySeconds(Delay(v)) * SECOND
    ensures AsksAgain(forgets, es, n)
    ensures var lost := if v.IpRefused? && !es[n].exact then SLOW.refill else 0;
      Finds(forgets, es, n + 1, Waited(SLOW.PairCap(), pair - lost, wait), Waited(SLOW.IpCap(), ip, wait))
  {
    Caps();
    AnswerByLevels(SLOW, forgets, es, n);
    LevelsOnReturn(SLOW, forgets, es, n, n + 1);
  }

  /** Two refusals by the pair bucket. */
  lemma FirstTwo(forgets: bool, es: seq<Event<string>>, n: nat, exact: bool)
    requires Persists(es, n, exact) && Finds(forgets, es, n, 585 * TENTH, 245 * TENTH)
    ensures AsksAgain(forgets, es, n) && AsksAgain(forgets, es, n + 1)
    ensures Finds(forgets, es, n + 2, 600 * TENTH, 265 * TENTH)
  {
    Caps();
    Refused(forgets, es, n, 585 * TENTH, 245 * TENTH, PairRefused(15 * TENTH), 10 * TENTH);
    Refused(forgets, es, n + 1, 595 * TENTH, 255 * TENTH, PairRefused(5 * TENTH), 10 * TENTH);
  }

  /** Then two by the IP bucket. */
  lemma NextTwo(forgets: bool, es: seq<Event<string>>, n: nat, exact: bool)
    requires Persists(es, n, exact) && Finds(forgets, es, n + 2, 600 * TENTH, 265 * TENTH)
    ensures AsksAgain(forgets, es, n + 2) && AsksAgain(forgets, es, n + 3)
    ensures !exact ==> Finds(forgets, es, n + 4, 11 * TENTH, 306 * TENTH)
  {
    Caps();
    Refused(forgets, es, n + 2, 600 * TENTH, 265 * TENTH, IpRefused(35 * TENTH), 30 * TENTH);
    Refused(forgets, es, n + 3, 600 * TENTH, 295 * TENTH, IpRefused(5 * TENTH), 11 * TENTH);
  }

  /** Then, if the last token was lost, two by the pair bucket again. */
  lemma LastTwo(forgets: bool, es: seq<Event<string>>, n: nat)
    requires Persists(es, n, false) && Finds(forgets, es, n + 4, 11 * TENTH, 306 * TENTH)
    ensures AsksAgain(forgets, es, n + 4) && !AnswerAt(SLOW, forgets, es, n + 5).Admitted?
  {
    Caps();
    Refused(forgets, es, n + 4, 11 * TENTH, 306 * TENTH, PairRefused(589 * TENTH), 580 * TENTH);
    AnswerByLevels(SLOW, forgets, es, n + 5);
  }

  /** The requests `n` to `n + count - 1`. */
  function From(n: nat, count: nat): seq<nat> {
    seq(count, k requires 0 <= k => n + k)
  }

  lemma RefusedInARow(forgets: bool, es: seq<Event<string>>, n: nat, count: nat)
    requires 0 < count && n + count <= |es| && forall k | n <= k < n + count - 1 :: AsksAgain(forgets, es, k)
    requires es[n + count - 1].Allow? && !AnswerAt(SLOW, forgets, es, n + count - 1).Admitted?
    ensures Refusals(SLOW, forgets, es, From(n, count))
  {
    var asks := From(n, count);
    forall k: nat | k < count
      ensures asks[k] < |es| && es[asks[k]].Allow? && !AnswerAt(SLOW, forgets, es, asks[k]).Admitted?
      ensures k + 1 < count ==> WaitsHeader(SLOW, forgets, es, asks[k], asks[k + 1])
    {
      assert asks[k] == n + k;
      if k + 1 < count {
        assert AsksAgain(forgets, es, n + k);
      }
    }
  }

  /** With exact refunds a client can be refused four times though it obeys every header. */
  lemma FourHeaderWaitsNeeded(forgets: bool) returns (es: seq<Event<string>>, asks: seq<nat>)
    ensures SLOW.Valid() && Monotone(es) && Refusals(SLOW, forgets, es, asks) && |asks| == 4
    ensures forall k: nat | k < |asks| :: es[asks[k]].exact
  {
    var n;
    es, n := PersistentClient(true);
    FirstFinds(forgets, es, n);
    FirstTwo(forgets, es, n, true);
    NextTwo(forgets, es, n, true);
    RefusedInARow(forgets, es, n, 4);
    asks := From(n, 4);
  }

  /** With a lost refund, six times. */
  lemma SixHeaderWaitsNeeded(forgets: bool) returns (es: seq<Event<string>>, asks: seq<nat>)
    ensures SLOW.Valid() && Monotone(es) && Refusals(SLOW, forgets, es, asks) && |asks| == 6
  {
    var n;
    es, n := PersistentClient(false);
    FirstFinds(forgets, es, n);
    FirstTwo(forgets, es, n, false);
    NextTwo(forgets, es, n, false);
    LastTwo(forgets, es, n);
    RefusedInARow(forgets, es, n, 6);
    asks := From(n, 6);
  }
}

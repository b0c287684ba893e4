/** The window bounds of the rate limiter, carried over to whole requests: what the guard lets
    through in any window, whatever its other layers answer in between. */
module GuardWindow {
  import opened Limiter
  import opened LimiterWindow
  import LimiterKeys
  import opened Server

  /** A request with the answers of the other layers, or a sweep. */
  datatype Call =
    | Request(ip: string, device: string, now: int, exact: bool, busy: bool, full: bool, challenge: Challenge)
    | Sweeps(now: int)

  function Event(c: Call): Event<string> {
    if c.Request? then Asking(c.ip, c.device, c.now, c.exact) else Sweep(c.now)
  }

  /** The buckets before call `n` of a guard that starts without entries. */
  function Buckets(cfg: Config, calls: seq<Call>, n: nat): State<string>
    requires n <= |calls|
  {
    if n == 0 then State(map[], map[])
    else
      var before, c := Buckets(cfg, calls, n - 1), calls[n - 1];
      if c.Request? then MeteredState(cfg, before, Event(c), c.busy, c.full, c.challenge)
      else Next(cfg, true, before, Event(c))
  }

  predicate PassedAt(cfg: Config, calls: seq<Call>, n: nat)
    requires n < |calls|
  {
    var c := calls[n];
    c.Request? && Judgement(c.busy, c.full, c.challenge, Answer(cfg, Buckets(cfg, calls, n), Event(c))).Passed?
  }

  ghost predicate InOrder(calls: seq<Call>) {
    forall i, j | 0 <= i < j < |calls| :: calls[i].now <= calls[j].now
  }

  predicate Uses(g: Gauge<string>, c: Call) {
    g.UsedBy(Event(c))
  }

  predicate Passes(cfg: Config, calls: seq<Call>, g: Gauge<string>, n: nat) {
    n < |calls| && Uses(g, calls[n]) && PassedAt(cfg, calls, n)
  }

  /** Requests on the gauge among calls i..j-1 that the guard let through. */
  function PassesIn(cfg: Config, calls: seq<Call>, g: Gauge<string>, i: nat, j: nat): nat
    requires i <= j <= |calls|
    decreases j
  {
    if i == j then 0
    else PassesIn(cfg, calls, g, i, j - 1) + if Passes(cfg, calls, g, j - 1) then 1 else 0
  }

  // ----- one call seen from one gauge

  lemma {:induction false} BucketsSound(cfg: Config, calls: seq<Call>, n: nat, now: int)
    requires cfg.Valid() && InOrder(calls) && n <= |calls| && (n > 0 ==> calls[n - 1].now <= now)
    ensures Sound(cfg, Buckets(cfg, calls, n), now)
  {
    if n > 0 {
      var before := if n > 1 then calls[n - 2].now else calls[0].now;
      BucketsSound(cfg, calls, n - 1, before);
      CallSound(cfg, calls, n - 1, before, now);
    }
  }

  lemma CallSound(cfg: Config, calls: seq<Call>, n: nat, before: int, now: int)
    requires cfg.Valid() && n < |calls| && before <= calls[n].now <= now && Sound(cfg, Buckets(cfg, calls, n), before)
    ensures Sound(cfg, Buckets(cfg, calls, n + 1), now)
  {
    StepSound(cfg, true, Buckets(cfg, calls, n), Event(calls[n]), before);
    SoundLater(cfg, Buckets(cfg, calls, n + 1), if Moves(calls[n]) then calls[n].now else before, now);
  }

  lemma SoundLater(cfg: Config, s: State<string>, t: int, now: int)
    requires Sound(cfg, s, t) && t <= now
    ensures Sound(cfg, s, now)
  {
    forall g: Gauge<string> | g.Has(s) ensures EntryOk(g.Entry(s), g.Cap(cfg), now) {
      assert EntryOk(g.Entry(s), g.Cap(cfg), t);
    }
  }

  /** Sweeps, and requests that get as far as the rate limiter. */
  predicate Moves(c: Call) {
    c.Request? ==> !c.busy && !c.full && (c.challenge == Disabled || c.challenge == TokenAccepted)
  }

  function ReadingOf(cfg: Config, calls: seq<Call>, g: Gauge<string>, n: nat): Reading
    requires n < |calls|
  {
    Reading(calls[n].now, g.Level(cfg, Buckets(cfg, calls, n), calls[n].now),
            g.Level(cfg, Buckets(cfg, calls, n + 1), calls[n].now), Passes(cfg, calls, g, n))
  }

  function ReadingsOf(cfg: Config, calls: seq<Call>, g: Gauge<string>): seq<Reading> {
    seq(|calls|, n requires 0 <= n < |calls| => ReadingOf(cfg, calls, g, n))
  }

  lemma CallSpends(cfg: Config, calls: seq<Call>, g: Gauge<string>, n: nat)
    requires cfg.Valid() && InOrder(calls) && HourFills(cfg) && n < |calls|
    ensures var r := ReadingOf(cfg, calls, g, n);
      r.after + (if r.admitted then g.Cost(cfg) else 0) <= r.before
  {
    var s, c := Buckets(cfg, calls, n), calls[n];
    CapsCoverCosts(cfg);
    BucketsSound(cfg, calls, n, c.now);
    StepLevel(cfg, true, s, Event(c), g);
    if c.Request? {
      AnswerFromLevels(cfg, s, Event(c));
    }
  }

  lemma CallBounds(cfg: Config, calls: seq<Call>, g: Gauge<string>, n: nat)
    requires cfg.Valid() && InOrder(calls) && n < |calls|
    ensures 0 <= ReadingOf(cfg, calls, g, n).after && ReadingOf(cfg, calls, g, n).before <= g.Cap(cfg)
  {
    CapsCoverCosts(cfg);
    BucketsSound(cfg, calls, n, calls[n].now);
    BucketsSound(cfg, calls, n + 1, calls[n].now);
    LevelGains(cfg, Buckets(cfg, calls, n), g, calls[n].now, calls[n].now);
    LevelGains(cfg, Buckets(cfg, calls, n + 1), g, calls[n].now, calls[n].now);
  }

  lemma CallGains(cfg: Config, calls: seq<Call>, g: Gauge<string>, n: nat)
    requires cfg.Valid() && InOrder(calls) && 0 < n < |calls|
    ensures ReadingOf(cfg, calls, g, n).before
         <= ReadingOf(cfg, calls, g, n - 1).after + (calls[n].now - calls[n - 1].now)
  {
    CapsCoverCosts(cfg);
    BucketsSound(cfg, calls, n, calls[n - 1].now);
    LevelGains(cfg, Buckets(cfg, calls, n), g, calls[n - 1].now, calls[n].now);
  }

  lemma CallLawful(cfg: Config, calls: seq<Call>, g: Gauge<string>, n: nat)
    requires cfg.Valid() && InOrder(calls) && HourFills(cfg) && n < |calls|
    ensures Lawful(ReadingsOf(cfg, calls, g), n, g.Cap(cfg), g.Cost(cfg))
  {
    CallSpends(cfg, calls, g, n);
    CallBounds(cfg, calls, g, n);
    if n > 0 {
      CallGains(cfg, calls, g, n);
    }
  }

  lemma {:induction false} CountAgrees(rs: seq<Reading>, cfg: Config, calls: seq<Call>, g: Gauge<string>, i: nat,
                                       j: nat)
    requires i <= j <= |calls| == |rs| && forall n: nat | n < |rs| :: rs[n].admitted == Passes(cfg, calls, g, n)
    ensures PassesIn(cfg, calls, g, i, j) == Admissions(rs, i, j)
    decreases j
  {
    if i < j {
      CountAgrees(rs, cfg, calls, g, i, j - 1);
    }
  }

  lemma PassesCounted(cfg: Config, calls: seq<Call>, g: Gauge<string>, i: nat, j: nat)
    requires i <= j <= |calls|
    ensures PassesIn(cfg, calls, g, i, j) == Admissions(ReadingsOf(cfg, calls, g), i, j)
  {
    CountAgrees(ReadingsOf(cfg, calls, g), cfg, calls, g, i, j);
  }

  lemma GaugePasses(cfg: Config, calls: seq<Call>, i: nat, j: nat, g: Gauge<string>, tokens: nat)
    requires cfg.Valid() && InOrder(calls) && HourFills(cfg) && i < j <= |calls|
    requires g.Cap(cfg) == tokens * g.Cost(cfg) && g.Cost(cfg) >= 1 && calls[i].now <= calls[j - 1].now
    ensures PassesIn(cfg, calls, g, i, j) <= tokens + (calls[j - 1].now - calls[i].now) / g.Cost(cfg)
  {
    var rs := ReadingsOf(cfg, calls, g);
    forall n: nat | n < |rs| ensures Lawful(rs, n, tokens * g.Cost(cfg), g.Cost(cfg)) {
      CallLawful(cfg, calls, g, n);
    }
    AccountBound(rs, i, j, tokens, g.Cost(cfg));
    PassesCounted(cfg, calls, g, i, j);
  }

  /** In any window the guard lets at most burst requests plus one per refill interval of one device
      at one IP through, and at most twice the burst plus one per half interval of one IP. */
  lemma GuardBound(cfg: Config, calls: seq<Call>, i: nat, j: nat, ip: string, device: string)
    requires cfg.Valid() && InOrder(calls) && cfg.burst * cfg.refill <= HOUR + 1 && i < j <= |calls|
    ensures PassesIn(cfg, calls, PairGauge(ip + ":" + device), i, j)
         <= cfg.burst + (calls[j - 1].now - calls[i].now) / cfg.refill
    ensures PassesIn(cfg, calls, IpGauge(ip), i, j)
         <= 2 * cfg.burst + (calls[j - 1].now - calls[i].now) / (cfg.refill / 2)
  {
    CapsCoverCosts(cfg);
    assert calls[i].now <= calls[j - 1].now;
    GaugePasses(cfg, calls, i, j, PairGauge(ip + ":" + device), cfg.burst);
    GaugePasses(cfg, calls, i, j, IpGauge(ip), 2 * cfg.burst);
  }
}

/** The sequential objects behind the lifecycle: slot counter, guard, session manager, handler.

    Every method that tears sessions down promises the effect of the same program of atomic
    steps that a lifecycle thread runs, uninterrupted.  Clock readings, random ids and the
    outcome of backend and network calls are parameters.
  */
module Server {
  import opened Bindings
  import opened Teardown
  import Limiter
  import LimiterKeys
  import LimiterRetry
  import opened RateLimiter

  class ConcurrencyLimiter {
    const maxConcurrent: int
    var active: int
    var totalRejected: int

    constructor (max: int)
      ensures maxConcurrent == (if max <= 0 then 12 else max) && active == 0 && totalRejected == 0
    {
      maxConcurrent := if max <= 0 then 12 else max;
      active, totalRejected := 0, 0;
    }

    method CompareAndSwap(seen: int, value: int) returns (swapped: bool)
      modifies this`active
      ensures swapped == (old(active) == seen)
      ensures active == if swapped then value else old(active)
    {
      swapped := active == seen;
      if swapped {
        active := value;
      }
    }

    /** The retry loop while other threads write the counter: `others[k]` is what they have made
        of it between the load and the compare-and-swap of attempt `k`.  Every failed attempt is
        paid for by a write of theirs. */
    method TryAcquireAmid(others: seq<int>) returns (ok: bool, failures: nat)
      modifies this
      ensures failures <= |others|
      ensures ok ==> totalRejected == old(totalRejected) && active <= maxConcurrent
      ensures ok ==>
        active - 1 == (if failures < |others| then others[failures]
                       else if failures == 0 then old(active) else others[failures - 1])
      ensures !ok ==> totalRejected == old(totalRejected) + 1 && active >= maxConcurrent
      ensures !ok ==> active == if failures == 0 then old(active) else others[failures - 1]
    {
      failures := 0;
      while true
        invariant failures <= |others|
        invariant active == if failures == 0 then old(active) else others[failures - 1]
        invariant totalRejected == old(totalRejected)
        decreases |others| - failures
      {
        var current := active;
        if current >= maxConcurrent {
          totalRejected := totalRejected + 1;
          return false, failures;
        }
        if failures < |others| {
          active := others[failures];
        }
        var swapped := CompareAndSwap(current, current + 1);
        if swapped {
          return true, failures;
        }
        failures := failures + 1;
      }
    }

    method TryAcquire() returns (ok: bool)
      modifies this
      ensures ok == (old(active) < maxConcurrent)
      ensures active == old(active) + (if ok then 1 else 0)
      ensures totalRejected == old(totalRejected) + (if ok then 0 else 1)
    {
      var failures;
      ok, failures := TryAcquireAmid([]);
    }

    method Release()
      modifies this`active
      ensures active == if old(active) > 0 then old(active) - 1 else 0
      ensures active == Returned(old(active), 1)
    {
      active := active - 1;
      if active < 0 {
        active := 0;
      }
    }
  }

  /** The `release` closure of a create request. */
  class SlotLease {
    const limiter: ConcurrencyLimiter
    var slotReleased: bool

    constructor (limiter: ConcurrencyLimiter)
      ensures this.limiter == limiter && !slotReleased
    {
      this.limiter, slotReleased := limiter, false;
    }

    /** Gives the slot back the first time and does nothing afterwards. */
    method Release()
      modifies this, limiter`active
      ensures slotReleased
      ensures limiter.active == if old(slotReleased) then old(limiter.active) else Returned(old(limiter.active), 1)
    {
      if !slotReleased {
        slotReleased := true;
        limiter.Release();
      }
    }
  }

  datatype Challenge = Disabled | TokenMissing | TokenRejected | TokenAccepted

  datatype Refusal = DeviceBusy | CapacityReached | ChallengeRequired | ChallengeFailed | RateLimited(retrySeconds: int)

  datatype Check = Passed | Refused(why: Refusal)

  /** The layers of the guard in their order, each seen only by requests that passed the ones
      before it. */
  function Judgement(busy: bool, full: bool, challenge: Challenge, verdict: Limiter.Verdict): Check {
    if busy then Refused(DeviceBusy)
    else if full then Refused(CapacityReached)
    else if challenge.TokenMissing? then Refused(ChallengeRequired)
    else if challenge.TokenRejected? then Refused(ChallengeFailed)
    else if verdict.Admitted? then Passed
    else Refused(RateLimited(LimiterRetry.RetrySeconds(LimiterRetry.Delay(verdict))))
  }

  function Asking(ip: string, device: DeviceId, now: int, exact: bool): (e: Limiter.Event<string>)
    ensures e.Allow?
  {
    Limiter.Allow(LimiterKeys.PairKey(ip, device), ip, now, exact)
  }

  /** The buckets after a request: only one that passes the earlier layers is metered. */
  function MeteredState(cfg: Limiter.Config, s: Limiter.State<string>, e: Limiter.Event<string>,
                        busy: bool, full: bool, challenge: Challenge): Limiter.State<string> {
    if !busy && !full && (challenge.Disabled? || challenge.TokenAccepted?) then Limiter.Next(cfg, true, s, e) else s
  }

  /** What the guard promises for a request, said of the device map, the slots, the token and the
      credit behind the two keys: `before` and `after` are the buckets before and after it. */
  ghost predicate Judged(check: Check, cfg: Limiter.Config, before: Limiter.State<string>, after: Limiter.State<string>,
                         ip: string, device: DeviceId, now: int, exact: bool,
                         busy: bool, full: bool, challenge: Challenge) {
    var key, pairCap, ipCap := ip + ":" + device, cfg.burst * cfg.refill, 2 * cfg.burst * (cfg.refill / 2);
    var pair, single := Limiter.Level(before.pairs, key, pairCap, now), Limiter.Level(before.ips, ip, ipCap, now);
    var pair', single' := Limiter.Level(after.pairs, key, pairCap, now), Limiter.Level(after.ips, ip, ipCap, now);
    var metered := !busy && !full && (challenge == Disabled || challenge == TokenAccepted);
    && (check.Passed? <==> metered && pair >= cfg.refill && single >= cfg.refill / 2)
    && (check == Refused(DeviceBusy) <==> busy)
    && (check == Refused(CapacityReached) <==> !busy && full)
    && (check == Refused(ChallengeRequired) <==> !busy && !full && challenge == TokenMissing)
    && (check == Refused(ChallengeFailed) <==> !busy && !full && challenge == TokenRejected)
    && (Throttled(check) <==> metered && (pair < cfg.refill || single < cfg.refill / 2))
    && (Throttled(check) ==>
          RoundsTo(check.why.retrySeconds, if pair < cfg.refill then cfg.refill - pair else cfg.refill / 2 - single))
    && (!metered ==> after == before)
    && (check.Passed? ==> pair' == pair - cfg.refill && single' == single - cfg.refill / 2)
    && (Throttled(check) ==> single' == single)
    && (Throttled(check) ==> pair' == if pair < cfg.refill || exact then pair else pair - cfg.refill)
    && after.pairs - {key} == before.pairs - {key} && after.ips - {ip} == before.ips - {ip}
  }

  predicate Throttled(check: Check) {
    check.Refused? && check.why.RateLimited?
  }

  /** Whole seconds of a delay, at least one. */
  predicate RoundsTo(secs: int, delay: int) {
    && secs >= 1 && delay - LimiterRetry.SECOND < secs * LimiterRetry.SECOND
    && (delay >= LimiterRetry.SECOND ==> secs * LimiterRetry.SECOND <= delay)
  }

  /** The layers keep that promise. */
  lemma LayersJudge(cfg: Limiter.Config, s: Limiter.State<string>, ip: string, device: DeviceId, now: int, exact: bool,
                    busy: bool, full: bool, challenge: Challenge)
    ensures var e := Asking(ip, device, now, exact);
      Judged(Judgement(busy, full, challenge, Limiter.Answer(cfg, s, e)), cfg, s,
             MeteredState(cfg, s, e, busy, full, challenge), ip, device, now, exact, busy, full, challenge)
  {
    assert LimiterKeys.PairKey(ip, device) == ip + ":" + device;
    var after := MeteredState(cfg, s, Asking(ip, device, now, exact), busy, full, challenge);
    assert after.pairs - {ip + ":" + device} == s.pairs - {ip + ":" + device} && after.ips - {ip} == s.ips - {ip};
  }

  class Guard {
    const rateLimiter: RateLimiter
    const concurrency: ConcurrencyLimiter
    var deviceSessions: map<DeviceId, SessionId>
    var sessionDevices: map<SessionId, DeviceId>

    constructor (rateLimiter: RateLimiter, concurrency: ConcurrencyLimiter)
      ensures this.rateLimiter == rateLimiter && this.concurrency == concurrency && Maps() == EMPTY
    {
      this.rateLimiter, this.concurrency := rateLimiter, concurrency;
      deviceSessions, sessionDevices := map[], map[];
    }

    function Maps(): Table
      reads this
    {
      Table(deviceSessions, sessionDevices)
    }

    ghost predicate Valid()
      reads this, rateLimiter
    {
      rateLimiter.Valid() && this !in rateLimiter.Repr && concurrency !in rateLimiter.Repr
    }

    method HasActiveDeviceSession(device: DeviceId) returns (yes: bool)
      ensures yes == (device in deviceSessions)
    {
      yes := device in deviceSessions;
    }

    method RegisterSession(device: DeviceId, session: SessionId)
      modifies this`deviceSessions, this`sessionDevices
      ensures Maps() == Bind(old(Maps()), device, session)
    {
      deviceSessions := deviceSessions[device := session];
      sessionDevices := sessionDevices[session := device];
    }

    method ReleaseSession(session: SessionId)
      modifies this
      ensures Maps() == Release(old(Maps()), session)
    {
      if session in sessionDevices {
        deviceSessions := deviceSessions - {sessionDevices[session]};
        sessionDevices := sessionDevices - {session};
      }
    }

    /** The layers behind the slot: a refusal gives the slot back through the lease. */
    method CheckWithSlot(ip: string, device: DeviceId, challenge: Challenge, now: int, exact: bool, release: SlotLease)
      returns (check: Check)
      requires Valid() && concurrency.active >= 1 && release.limiter == concurrency && !release.slotReleased
      requires release !in rateLimiter.Repr && release as object != rateLimiter
      modifies release, concurrency`active, rateLimiter, rateLimiter.Repr
      ensures Valid() && fresh(rateLimiter.Repr - old(rateLimiter.Repr))
      ensures var e := Asking(ip, device, now, exact);
        && check == Judgement(false, false, challenge, Limiter.Answer(rateLimiter.cfg, old(rateLimiter.Abs()), e))
        && rateLimiter.Abs() == MeteredState(rateLimiter.cfg, old(rateLimiter.Abs()), e, false, false, challenge)
      ensures release !in rateLimiter.Repr
      ensures release.slotReleased == !check.Passed?
      ensures concurrency.active == old(concurrency.active) - (if check.Passed? then 0 else 1)
    {
      if challenge.TokenMissing? {
        release.Release();
        return Refused(ChallengeRequired);
      }
      if challenge.TokenRejected? {
        release.Release();
        return Refused(ChallengeFailed);
      }
      var allowed, delay := rateLimiter.Allow(ip, device, now, exact);
      if !allowed {
        release.Release();
        return Refused(RateLimited(LimiterRetry.RetrySeconds(delay)));
      }
      return Passed;
    }

    /** Runs the layers in order. */
    method RunLayers(ip: string, device: DeviceId, challenge: Challenge, now: int, exact: bool)
      returns (check: Check, lease: SlotLease?)
      requires Valid() && 0 <= concurrency.active
      modifies concurrency, rateLimiter, rateLimiter.Repr
      ensures Valid() && fresh(rateLimiter.Repr - old(rateLimiter.Repr))
      ensures var busy, full := device in deviceSessions, old(concurrency.active) >= concurrency.maxConcurrent;
        var e := Asking(ip, device, now, exact);
        && check == Judgement(busy, full, challenge, Limiter.Answer(rateLimiter.cfg, old(rateLimiter.Abs()), e))
        && rateLimiter.Abs() == MeteredState(rateLimiter.cfg, old(rateLimiter.Abs()), e, busy, full, challenge)
      ensures concurrency.active == old(concurrency.active) + (if check.Passed? then 1 else 0)
      ensures check.Passed? <==> lease != null
      ensures lease != null ==> fresh(lease) && lease.limiter == concurrency && !lease.slotReleased
      ensures lease != null ==> lease !in rateLimiter.Repr
    {
      var busy := HasActiveDeviceSession(device);
      if busy {
        return Refused(DeviceBusy), null;
      }
      var acquired := concurrency.TryAcquire();
      if !acquired {
        return Refused(CapacityReached), null;
      }
      assert rateLimiter.Valid() && rateLimiter.Abs() == old(rateLimiter.Abs());
      lease := new SlotLease(concurrency);
      check := CheckWithSlot(ip, device, challenge, now, exact, lease);
      if !check.Passed? {
        lease := null;
      }
    }

    /** What comes of it: a refusal at any layer leaves the slot counter as it was; a pass leaves
        exactly one more slot taken, for which the lease answers. */
    method CheckAnonymousCreate(ip: string, device: DeviceId, challenge: Challenge, now: int, exact: bool)
      returns (check: Check, lease: SlotLease?)
      requires Valid() && 0 <= concurrency.active
      modifies concurrency, rateLimiter, rateLimiter.Repr
      ensures Valid() && fresh(rateLimiter.Repr - old(rateLimiter.Repr))
      ensures Judged(check, rateLimiter.cfg, old(rateLimiter.Abs()), rateLimiter.Abs(), ip, device, now, exact,
                     device in deviceSessions, old(concurrency.active) >= concurrency.maxConcurrent, challenge)
      ensures concurrency.active == old(concurrency.active) + (if check.Passed? then 1 else 0)
      ensures check.Passed? <==> lease != null
      ensures lease != null ==> fresh(lease) && lease.limiter == concurrency && !lease.slotReleased
      ensures lease != null ==> lease !in rateLimiter.Repr
    {
      LayersJudge(rateLimiter.cfg, rateLimiter.Abs(), ip, device, now, exact,
        device in deviceSessions, concurrency.active >= concurrency.maxConcurrent, challenge);
      check, lease := RunLayers(ip, device, challenge, now, exact);
    }
  }
}

# Docpine: verified models of the sandbox-slot protocol, the rate limiter and the stream pumps

Docpine hands out short-lived sandboxes to anonymous clients. This project models, in Dafny, the
parts of it whose correctness no single file shows:

* **Slots and sessions.** A slot is taken by a lock-free counter, held by a create request, handed
  over silently when the session enters the registry, and given back by a callback that any of four
  competing removers may run. `Lifecycle` is a transition system with any number of create, destroy,
  attach, close and reaper threads at the granularity of the atomic and lock-protected steps;
  `LifecycleInvariant`, `LifecycleSafety`, `LifecycleTheorems` and `LifecycleBindings` prove what
  every run keeps. `LifecycleReach` and `LifecycleShutdown` are about what can still happen from a
  state: every thread can be brought to its end, the registry can be emptied, shutdown completes.
  `LifecycleOverlap` and `LifecycleLockout` say exactly when the device check fails and when it locks a
  device out. `LifecycleReasons` tells who removes sessions by what each thread was called for.
  `Teardown` is the program of steps that all removers share, `Registry` and `RegistryHistory` the
  session map and what its reaps leave unseen. `SlotCounter` treats the counter alone, under arbitrary
  callers. `Residency` adds the clock, the ticker and the sequential reaper, `ResidencyAttained` shows
  that its bound is reached.
* **The objects.** `Server` and `Manager` are the sequential classes (slot counter, release closure,
  guard, session manager, create handler). Their contracts equate the new state with the effect of the
  same steps that a lifecycle thread runs uninterrupted (`LifecycleAlone`, for the create handler and for
  all removers). `GuardWindow` carries the window bounds of the rate limiter over to whole requests.
* **The rate limiter.** `Limiter` describes the pair bucket, the IP bucket, the refund and the sweep in
  exact nanoseconds; `LimiterWindow`, `LimiterEviction`, `LimiterSharing`, `LimiterRetry`,
  `LimiterThirdWait`, `LimiterHeader`, `LimiterHeaderTight`, `LimiterEntries` and `LimiterKeys` prove its
  laws; `RateLimiter` is the object graph of mutable entries and buckets that refines it.
* **The device cookie** (`Decimal`, `Cookie`) and **the WebSocket pumps** (`Pumps`, and
  `PumpsClient` for what both ends get to see). `Common` holds what several modules need.

`dafny verify dfyconfig.toml` checks everything (with a resource limit of 2000000).

## Three results that differ from the documentation

* "One active session per device" is not what the code enforces: the device check and the
  registration are separate steps. `LifecycleOverlap.OverlapDecides` says exactly when the maps stay
  inverses: if and only if no two creates of one device are past the check together, however full the
  server. `LifecycleOverlap.OverlapGivesTwoSessions` says when such an overlap can end in two unreleased
  sessions: if and only if the cap is at least two. A session torn down before its registration locks
  its device out for good (`LifecycleLockout.RegistrationLocksExactly`, `LockedForGood`).
* Forgetting a bucket after an hour is invisible exactly when filling a pair bucket takes at most an
  hour and a nanosecond (`LimiterEviction.EvictionInvisibleExactly`).
* The library cancels a reservation that already took effect only if its clock has not moved. So the
  refund of the pair token may be lost; the window, eviction and sharing laws hold either way, but a
  client may then need a third wait: `LimiterRetry.ThirdWaitExactly` gives the exact condition within a
  run, `LimiterThirdWait.ThirdWaitPossibleExactly` the configurations for which such a run exists.

## Model

| member | source | states |
|---|---|---|
| LifecycleTheorems.SlotConservation | internal/abuse/guard.go:69-91 | in every state of every run the counter equals requests holding a slot plus registered sessions plus removed sessions that still owe theirs, stays within 0 and the cap, and no thread is ever about to execute the clamping store of Release |
| LifecycleTheorems.SandboxBound | internal/session/manager.go:165-170 | existing sandboxes are at most the counter, hence the cap, plus those being destroyed after their slot went back |
| LifecycleTheorems.TeardownExactlyOnce | internal/session/manager.go:151-171 | however Destroy, Attach, the reaper and Close race: each callback step and each sandbox Destroy runs at most once, in order and only for removed sessions, and all have run exactly when the removing thread is done with the session |
| LifecycleTheorems.RemovedAtMostOnce | internal/session/manager.go:152-159 | a session once registered is for ever either still in the registry or removed, by one thread that never changes |
| LifecycleReasons.RemovalReason | internal/session/manager.go:116-171 | a session leaves the registry only by a thread that came as a client's Destroy of it or as Close, or past its expiry |
| LifecycleReasons.AttachRemovesExpired | internal/session/manager.go:116-131 | a thread that came as an Attach removes nothing but its own session, and that only past its registered expiry |
| LifecycleReasons.ExpiryFromIssue | internal/session/manager.go:96-109 | the expiry of every registered session is its lifetime after its sandbox came up, however late it is inserted |
| LifecycleReasons.NoReaperAfterClose | internal/session/manager.go:188-193 | once Close has emptied the registry no reaper is left, in any later state |
| LifecycleTheorems.DrainReturnsEverything | internal/session/manager.go:188-220 | with no create handler in flight and all removers done the counter is the number of registered sessions; after Close, if nothing was inserted since, counter, registry and sandboxes are all empty |
| LifecycleAlone.UninterruptedDestroy | internal/session/manager.go:151-171 | alone, a Destroy ends with an unknown id changing nothing and a known one torn down |
| LifecycleAlone.UninterruptedAttach | internal/session/manager.go:116-131 | alone, an Attach ends with a session past its expiry torn down by this thread and anything else unchanged |
| LifecycleAlone.UninterruptedReap | internal/session/manager.go:238-262 | alone, a tick tears down exactly the sessions past their expiry, one by one |
| LifecycleAlone.UninterruptedClose | internal/session/manager.go:188-220 | alone, Close tears down everything, callbacks first |
| LifecycleAlone.UninterruptedCreate | internal/transport/http/session_handler.go:33-62 | alone, a create with given answers of its layers opens a session if and only if device and slot are free and every layer and the backend say yes; otherwise nothing changes |
| LifecycleSafety.RunInvariant | cmd/docpine/main.go:57-60 | the ownership invariant behind the theorems holds in every state of every run |
| LifecycleBindings.BindingsUnconditional | internal/abuse/guard.go:161-179 | under every schedule a device entry points to a session that points back, and a session has an entry exactly while registered and not released, or if it was registered after its release |
| LifecycleBindings.BindingsWithoutOverlap | internal/transport/http/session_handler.go:43-56 | if creates of one device never overlap, the two maps are mutual inverses, each device has at most one unreleased session, and the device check answers yes exactly for registered, unreleased (or too late registered) sessions |
| LifecycleBindings.DrainLeavesOnlyLate | cmd/docpine/main.go:57-65 | after the drain the entries left are exactly the sessions registered after their own release, so both maps are empty if and only if every registration preceded its release |
| LifecycleOverlap.OverlapDecides | internal/abuse/guard.go:56-67 | in a server that has kept its creates apart so far, the maps stay mutual inverses in every continuation without further device checks if and only if no two creates of one device are in flight |
| LifecycleOverlap.OverlapBreaksInverses | internal/transport/http/session_handler.go:43-56 | from every reachable state with two overlapping creates of one device, at any program counters and however full the server, some continuation, in which nobody uses an id before it is given out, breaks the maps |
| LifecycleOverlap.OverlapGivesTwoSessions | internal/abuse/guard.go:56-67 | two overlapping creates of a device whose sessions, if any, are still registered can end in two unreleased sessions of it if and only if the cap is at least two |
| LifecycleOverlap.RoomGivesTwoSessions | internal/transport/http/session_handler.go:43-56 | with slots for both and neither about to bind a released session, they run on to two unreleased sessions and maps that are not inverses |
| LifecycleOverlap.OverlapHappens | internal/abuse/guard.go:56-67 | from every reachable state any device without an entry can come to have two creates past the check |
| LifecycleLockout.LateRegistrationLocksDevice | internal/transport/http/session_handler.go:56-56 | every create about to register, in a server that kept its creates apart, can still lock its device for good: its session only has to end first |
| LifecycleLockout.RegistrationLocksExactly | internal/abuse/guard.go:161-179 | in such a server the device stays refused in every continuation of a registration, without further device checks, if and only if the session was released before; one registered in time can always be freed |
| LifecycleLockout.LockedForGood | internal/abuse/guard.go:154-179 | a locked device stays refused in every later state of every run |
| LifecycleLockout.FirstCreateCanLock | internal/transport/http/session_handler.go:43-56 | for every cap and lifetime the first create of a server can lock its device |
| LifecycleShutdown.ShutdownCompletes | internal/session/manager.go:188-220 | from every reachable state in which Close was called the threads that are there can all run to their end, answered or finished, save those not begun with a device check, without time passing; if the registry was not emptied before, no slot, session or sandbox is left |
| Bindings.DeviceEntriesPointBack | internal/abuse/guard.go:161-179 | after any sequence of registrations with fresh ids and releases every device entry points to a session that points back |
| Bindings.InversesExactlyWhenDevicesFree | internal/abuse/guard.go:154-179 | the maps stay mutual inverses through a history if and only if no registration hits a device that has a session |
| Bindings.ReleaseAllEffect | internal/abuse/guard.go:171-179 | releasing a batch unbinds exactly its sessions and their devices, whatever the order |
| Teardown.TeardownOrderUnseen | internal/session/manager.go:203-214 | the reaper's order (session by session) and Close's order (all callbacks first), over any two walks of the same sessions, end in the same state |
| Teardown.CallbacksFirstOrder | internal/session/manager.go:203-214 | Close's program step by step: no sandbox is destroyed before the last callback |
| Teardown.OneByOneOrder | internal/session/manager.go:253-261 | the reaper's program step by step: each session's steps together |
| Teardown.OneByOneEffect | internal/session/manager.go:253-261 | a whole reap returns one slot per session, unbinds them all and destroys their sandboxes, clamps included |
| RegistryHistory.ReapingUnobservable | internal/session/manager.go:134-186 | in any history of insertions, destroys, attaches and reaps under a monotone clock, Get and Attach succeed and ActiveCount counts as if no reap had ever run; only the name of a failure may change, from expired to not found, for a session that is gone from the registry; Get and ActiveCount disagree exactly on the sessions at their expiry instant |
| RegistryHistory.AttachLeavesNoExpired | internal/session/manager.go:125-130 | after an Attach in any history no expired entry of the session is left, a live one stays, and so does everything else |
| Residency.ResidencyBound | internal/session/manager.go:222-262 | every session is out of the registry by creation plus lifetime plus ten seconds per slot of the cap, with a sequential reaper and a ticker that drops ticks |
| Residency.GuardAlwaysMet | internal/session/manager.go:107-109 | the room that this clocked model asks of an insertion is there in every run of the lifecycle |
| LifecycleTheorems.RegistryWithinCap | internal/session/manager.go:107-109 | in every state of every run the registry holds at most the cap, and less whenever a handler is about to insert, whose id is new |
| Residency.ResidencyByBatch | internal/session/manager.go:222-262 | the delay beyond the lifetime is bounded by the size of the previous reap |
| ResidencyAttained.ResidencyReached | internal/session/manager.go:222-262 | for every size of a reap below the cap there is a run in which a session stays exactly ten seconds per session of that reap beyond its lifetime |
| SlotCounter.Linearizable | internal/abuse/concurrency.go:32-59 | every interleaving of the atomic steps, with no more releases than acquisitions at any moment, is a run of a sequential bounded counter with effects at the compare-and-swap, the refusing load and the add; every thread gets its own results in that order; the clamp is dead |
| SlotCounter.DeniedExactlyWhenFull | internal/abuse/concurrency.go:32-49 | in the order of the effects a TryAcquire is granted if and only if fewer slots are out than the cap, counted from grants and releases |
| SlotCounter.FailuresPaidByOthers | internal/abuse/concurrency.go:33-48 | a running TryAcquire has failed at most as often as the counter was written since its call, and succeeds if nobody wrote since its load |
| SlotCounter.RealTimeOrder | internal/abuse/concurrency.go:32-59 | a call that returned before another one was made stands before it in the order of effects |
| Server.ConcurrencyLimiter.constructor | internal/abuse/concurrency.go:21-28 | a cap that is not positive becomes 12 |
| Server.ConcurrencyLimiter.TryAcquireAmid | internal/abuse/concurrency.go:32-49 | the retry loop under any interference: at most one failure per foreign write, the cap kept on success, the counter at the cap on refusal |
| Server.ConcurrencyLimiter.TryAcquire | internal/abuse/concurrency.go:32-49 | without interference: success exactly below the cap, one slot taken or one rejection counted |
| Server.ConcurrencyLimiter.Release | internal/abuse/concurrency.go:52-59 | one slot back, never below zero |
| Server.SlotLease.Release | internal/abuse/guard.go:85-91 | the release closure gives the slot back the first time and nothing afterwards |
| Server.Guard.RegisterSession | internal/abuse/guard.go:162-168 | both maps gain the binding |
| Server.Guard.ReleaseSession | internal/abuse/guard.go:171-179 | both maps lose the binding of a known session, nothing changes for an unknown one |
| Server.Guard.CheckAnonymousCreate | internal/abuse/guard.go:52-151 | passes if and only if the device has no entry, a slot is free, the challenge is off or solved, and both buckets can pay; each refusal has its exact condition; a pass costs both buckets one token, no earlier refusal moves a bucket; a refusal leaves the counter, a pass takes one slot for an unused lease |
| Server.LayersJudge | internal/abuse/guard.go:52-151 | the order of the layers keeps that promise for every state of the buckets |
| GuardWindow.GuardBound | internal/abuse/guard.go:122-137 | over any sequence of requests, refused by whichever layer, and sweeps, the guard lets at most burst plus one per refill of a device at an IP through in any window, and twice the burst plus one per half refill of an IP |
| Manager.Manager.Create | internal/session/manager.go:86-113 | a provisioned sandbox is registered under its id with its expiry; a failure changes nothing |
| Manager.Manager.Get | internal/session/manager.go:134-148 | not found if and only if the id is not registered, expired if and only if it is registered and the clock is past its expiry |
| Manager.Manager.Attach | internal/session/manager.go:116-131 | expired if and only if the id is registered and past its expiry, and then it is gone from registry, device map and sandboxes with one slot back; otherwise nothing changes |
| Manager.Manager.Destroy | internal/session/manager.go:151-171 | an unknown id changes nothing; a known one is removed and its teardown program run, step by step in its order |
| Manager.Manager.ActiveCount | internal/session/manager.go:174-186 | the number of sessions whose expiry is after now |
| Manager.Manager.ReapExpired | internal/session/manager.go:238-262 | exactly the sessions past expiry are removed and torn down one after another |
| Manager.Manager.Close | internal/session/manager.go:188-220 | the registry is emptied and every callback runs before any sandbox is destroyed |
| Manager.HandleCreate | internal/transport/http/session_handler.go:33-62 | a bad payload costs nothing; otherwise the guard's promise holds and decides the response with the backend; every response but Created leaves counter, registry, maps and sandboxes as they were, Created adds one of each |
| LimiterWindow.WindowBound | internal/abuse/limiter.go:42-87 | in any window a pair gets at most burst plus one request per refill, an IP at most twice the burst plus one per half refill, with or without refunds, sweeps included when an hour fills a bucket |
| LimiterWindow.BurstAdmitted | internal/abuse/limiter.go:71-86 | any burst that both buckets can pay for is admitted and costs each bucket exactly one token a request |
| LimiterEviction.AnswersAgree | internal/abuse/limiter.go:94-117 | when an hour fills a bucket every request of every run is answered as by a limiter that never forgets |
| LimiterEviction.EvictionInvisibleExactly | internal/abuse/limiter.go:94-117 | sweeps are invisible on all runs if and only if burst times refill is at most an hour and a nanosecond |
| LimiterEntries.EntriesExactly | internal/abuse/limiter.go:94-117 | a key has an entry exactly as long as no sweep found it idle for more than an hour after its latest request, admitted or refused |
| LimiterSharing.IpBucketIdleForTwo | internal/abuse/limiter.go:51-84 | while at most two cookies use an IP its bucket refuses none of their requests, rounding of half the interval included |
| LimiterSharing.ThirdCookieRefused | internal/abuse/limiter.go:78-84 | for every configuration a third cookie can be refused by the IP bucket |
| LimiterRetry.TwoWaitsSuffice | internal/abuse/limiter.go:71-86 | a client that waits as told is refused once by each bucket, and then admitted unless the pair token of the second refusal was lost |
| LimiterRetry.ThirdWaitExactly | internal/abuse/limiter.go:78-84 | two obeyed waits do not suffice if and only if the second refusal came from the IP bucket and lost its pair token, and the pair bucket has not gained a second token by the end of the wait |
| LimiterRetry.ThreeWaitsAlwaysSuffice | internal/abuse/limiter.go:71-86 | whatever refunds are lost three obeyed waits suffice |
| LimiterThirdWait.ThirdWaitPossibleExactly | internal/abuse/limiter.go:78-84 | a run in which an obedient client needs a third wait exists if and only if the refill is at least four nanoseconds, for every burst |
| LimiterRetry.RetrySeconds | internal/abuse/guard.go:125-134 | the Retry-After value is at least one, undershoots the delay by less than a second and does not exceed a delay of a second or more (delay-seconds of section 10.2.3 of RFC 9110) |
| LimiterHeader.FourHeaderWaitsSuffice | internal/abuse/guard.go:125-134 | with exact refunds a client that waits only the header's whole seconds is refused at most four times in a row |
| LimiterHeader.SixHeaderWaitsAlwaysSuffice | internal/abuse/guard.go:125-134 | whatever refunds are lost, it is refused at most six times in a row |
| LimiterHeaderTight.FourHeaderWaitsNeeded | internal/abuse/guard.go:125-134 | a run with exact refunds in which it is refused four times |
| LimiterHeaderTight.SixHeaderWaitsNeeded | internal/abuse/guard.go:125-134 | a run in which it is refused six times |
| LimiterKeys.KeysNeverCollide | internal/abuse/limiter.go:48-48 | ip + ":" + id is injective for colon-free ids, IPv6 addresses included |
| LimiterKeys.StringKeysRefinePairs | internal/abuse/limiter.go:48-58 | the table keyed by strings answers every run like one keyed by true pairs |
| LimiterKeys.ColonInCookieCollides | internal/abuse/limiter.go:48-48 | with a colon in an id two different clients share a key |
| RateLimiter.RateLimiter.Allow | internal/abuse/limiter.go:42-87 | on the objects: the answer and every bucket afterwards are those of one Allow event |
| RateLimiter.RateLimiter.EvictStaleEntries | internal/abuse/limiter.go:94-117 | on the objects: exactly the entries not seen within the hour are deleted |
| Decimal.PrintParses | internal/abuse/cookie.go:49-52 | a printed integer parses back exactly when it fits 64 bits |
| Decimal.ParsesExactly | internal/abuse/cookie.go:49-52 | the strings that parse as a number are an optional sign, zeros and the number printed, within 64 bits |
| Cookie.PrintedCookieAccepted | internal/abuse/cookie.go:42-66 | for dot-free ids a printed cookie is accepted with its own id exactly from five minutes before to ten minutes after its time |
| Cookie.AcceptedExactly | internal/abuse/cookie.go:42-66 | a value is accepted as an id if and only if it is that id, some spelling of a timestamp in the window and the signature of both |
| Cookie.PayloadInjective | internal/abuse/cookie.go:34-39 | the signed text determines id and timestamp, for any id |
| Cookie.SignatureBindsCookie | internal/abuse/cookie.go:60-63 | an accepted value with the signature of an issued cookie has its id and time and is accepted exactly as long, unless the MAC collides on the two texts |
| Cookie.CookieSetExactly | internal/abuse/cookie.go:69-93 | for every presented cookie, none included: one is set if and only if none was presented or it does not verify, and afterwards the browser holds a cookie that verifies to exactly the id returned |
| Cookie.IssuedCookieKeepsDevice | internal/abuse/cookie.go:69-93 | the held cookie brings back the same id and no new cookie exactly as long as it verifies, a new one until its ten minutes, counted from the whole second, are over |
| Cookie.DeviceForgottenExactly | internal/abuse/cookie.go:69-93 | while its session lives a browser can come back as a device without one if and only if the cookie's age at creation and the lifetime exceed ten minutes |
| Pumps.KeystrokesReachPty | internal/transport/websocket/handler.go:156-182 | the PTY receives a prefix of the non-control client data in order; between messages it has received all of it |
| PumpsClient.OutputReachesClient | internal/transport/websocket/handler.go:132-154 | what a client reads off the wire is a prefix of the PTY output, at most one buffer behind it, all of it between chunks; the log lies between what was sent and what was printed; the pump stops only if PTY or connection made it and loses output only if the connection broke |
| PumpsClient.RepliesReachClient | internal/transport/websocket/handler.go:156-200 | every ping is answered by exactly one pong and one close frame comes before the session is destroyed, unless the connection broke |
| PumpsClient.KeystrokesNotDropped | internal/transport/websocket/handler.go:156-182 | the input pump stops only if connection or PTY made it and drops keystrokes only if the PTY refused them |
| Pumps.FramesNeverSplit | internal/transport/websocket/handler.go:121-126 | the connection carries whole frames and at most one incomplete frame at the end: pongs and close frames never split another one |
| Pumps.ChannelAndDestroy | internal/transport/websocket/handler.go:184-205 | a pump never blocks on the two-slot error channel, and the handler destroys its session once, after its wait and before it returns |

## Left out

- Docker, gVisor and Firecracker backends and the runtime registry: a sandbox is an id that exists from the end of CreateSandbox to the end of the manager's Destroy call; whether a backend's Destroy really freed its resources, and its error value, are not modelled.
- HTTP, JSON bodies, CORS, request ids, logging and configuration loading: only the outcome of each guard layer and of the create handler is kept.
- Turnstile: its answer is a parameter. Client IP extraction: an IP is any string.
- HMAC-SHA-256 is an arbitrary function of secret and text (section 2 of RFC 2104 is not modelled); a UUID is an id not issued before.
- The clock of the rate library: one reading per request and exact integers instead of floating point; its `Cancel` is the behaviour described in `Limiter`, with the lost refund as a choice of the environment. Configurations with burst 0 or a refill below two nanoseconds are not modelled.
- LimiterRetry.ThirdWaitExactly: asks that no sweep during the second wait forgets a bucket that is not full, which no sweep does when an hour fills a bucket; the sufficiency results need no such condition.
- LimiterHeader.FourHeaderWaitsSuffice: needs exact refunds; without them `SixHeaderWaitsAlwaysSuffice` is the bound. `LimiterHeaderTight` shows that neither can be lowered.
- LifecycleBindings.BindingsWithoutOverlap: needs creates of one device not to overlap; `OverlapDecides` shows that this is exact.
- One reaper and one Close: `Lifecycle` admits any number of both, which only strengthens what every run keeps. Where a continuation is constructed it uses the reaper that is there, or starts the first one; a further Close call appears only on a server that has drained its registry already, and for two overlapping creates only if its cap is one.
- Residency.ResidencyBound: takes the bound on registered sessions as a guard on insertion, which `GuardAlwaysMet` proves for the lifecycle, and lets steps other than waiting and destroying take no time.
- 64-bit wrap-around of the two counters: the slot counter stays within the cap, the count of rejections is unbounded.
- The guard's layers other than the device check and the slot are nondeterministic in `Lifecycle`; `Server` and `Manager` compute them.
- OnDestroy with several callbacks: main registers one, and that one is modelled.
- The two pumps and the counter's callers run concurrently, so `Pumps` and `SlotCounter` give their loops as steps of transition systems; the PTY pump's reused buffer is the chunk of its latest read, which no other goroutine sees.
- Contexts, the websocket upgrade and the session log's file errors; ordinary errors of the PTY, the connection and the timer are in `Pumps`.

/** The two maps of the abuse guard that tie devices to sessions, as values.

    `deviceSessions` answers "does this device have a session?", `sessionDevices` lets a
    destroyed session find its device again.  Binding and releasing are each one critical
    section of the guard's mutex, so a history of the maps is a sequence of operations.
  */
module Bindings {
  type DeviceId = string
  type SessionId = string

  datatype Table = Table(deviceSessions: map<DeviceId, SessionId>, sessionDevices: map<SessionId, DeviceId>)

  const EMPTY := Table(map[], map[])

  function Bind(b: Table, device: DeviceId, session: SessionId): Table {
    Table(b.deviceSessions[device := session], b.sessionDevices[session := device])
  }

  function Release(b: Table, session: SessionId): Table {
    if session in b.sessionDevices then
      Table(b.deviceSessions - {b.sessionDevices[session]}, b.sessionDevices - {session})
    else b
  }

  predicate HasSession(b: Table, device: DeviceId) {
    device in b.deviceSessions
  }

  /** Every device entry points to a session whose own entry points back to the device. */
  ghost predicate PointsBack(b: Table) {
    forall d <- b.deviceSessions ::
      b.deviceSessions[d] in b.sessionDevices && b.sessionDevices[b.deviceSessions[d]] == d
  }

  /** Every session entry points to a device whose own entry points back to the session. */
  ghost predicate PointsForth(b: Table) {
    forall s <- b.sessionDevices ::
      b.sessionDevices[s] in b.deviceSessions && b.deviceSessions[b.sessionDevices[s]] == s
  }

  ghost predicate MutualInverses(b: Table) {
    PointsBack(b) && PointsForth(b)
  }

  datatype Op = BindOp(device: DeviceId, session: SessionId) | ReleaseOp(session: SessionId)

  function Apply(b: Table, op: Op): Table {
    match op
    case BindOp(d, s) => Bind(b, d, s)
    case ReleaseOp(s) => Release(b, s)
  }

  /** The maps after the first `n` operations of a history that starts empty. */
  function After(ops: seq<Op>, n: nat): Table
    requires n <= |ops|
  {
    if n == 0 then EMPTY else Apply(After(ops, n - 1), ops[n - 1])
  }

  /** Session ids are random UUIDs: no id is bound twice. */
  ghost predicate FreshIds(ops: seq<Op>) {
    forall i, j | 0 <= i < j < |ops| && ops[i].BindOp? && ops[j].BindOp? :: ops[i].session != ops[j].session
  }

  ghost predicate BindsFreeDevice(ops: seq<Op>, i: nat)
    requires i < |ops|
  {
    ops[i].BindOp? ==> !HasSession(After(ops, i), ops[i].device)
  }

  /** The check that `HasActiveDeviceSession` makes, were it atomic with every binding. */
  ghost predicate BindsOnlyFreeDevices(ops: seq<Op>) {
    forall i: nat | i < |ops| :: BindsFreeDevice(ops, i)
  }

  lemma {:induction false} BoundBefore(ops: seq<Op>, n: nat, s: SessionId)
    requires n <= |ops| && s in After(ops, n).sessionDevices
    ensures exists i :: 0 <= i < n && ops[i] == BindOp(After(ops, n).sessionDevices[s], s)
  {
    if ops[n - 1] != BindOp(After(ops, n).sessionDevices[s], s) {
      BoundBefore(ops, n - 1, s);
    }
  }

  /** Whatever the interleaving, even with two overlapping creates of one device. */
  lemma {:induction false} DeviceEntriesPointBack(ops: seq<Op>, n: nat)
    requires FreshIds(ops) && n <= |ops|
    ensures PointsBack(After(ops, n))
  {
    if n > 0 {
      DeviceEntriesPointBack(ops, n - 1);
      var op := ops[n - 1];
      if op.BindOp? && op.session in After(ops, n - 1).sessionDevices {
        BoundBefore(ops, n - 1, op.session);
      }
    }
  }

  lemma BindKeepsForth(b: Table, d: DeviceId, s: SessionId)
    requires PointsForth(b) && !HasSession(b, d)
    ensures PointsForth(Bind(b, d, s))
  {
  }

  lemma ReleaseKeepsForth(b: Table, s: SessionId)
    requires PointsForth(b)
    ensures PointsForth(Release(b, s))
  {
  }

  lemma {:induction false} FreeDevicesKeepInverses(ops: seq<Op>, n: nat)
    requires FreshIds(ops) && BindsOnlyFreeDevices(ops) && n <= |ops|
    ensures MutualInverses(After(ops, n))
  {
    DeviceEntriesPointBack(ops, n);
    if n > 0 {
      FreeDevicesKeepInverses(ops, n - 1);
      var before := After(ops, n - 1);
      assert BindsFreeDevice(ops, n - 1);
      match ops[n - 1]
      case BindOp(d, s) => BindKeepsForth(before, d, s);
      case ReleaseOp(s) => ReleaseKeepsForth(before, s);
    }
  }

  lemma {:induction false} TakenDeviceBreaksInverses(ops: seq<Op>, i: nat)
    requires FreshIds(ops) && i < |ops| && ops[i].BindOp? && HasSession(After(ops, i), ops[i].device)
    ensures !MutualInverses(After(ops, i)) || !MutualInverses(After(ops, i + 1))
  {
    var before, after, d := After(ops, i), After(ops, i + 1), ops[i].device;
    DeviceEntriesPointBack(ops, i);
    var orphan := before.deviceSessions[d];
    BoundBefore(ops, i, orphan);
    assert orphan in after.sessionDevices && after.deviceSessions[d] == ops[i].session != orphan;
  }

  /** The maps stay mutual inverses through a whole history exactly when no operation binds a
      device that already has a session: the guard's check, if nothing came between it and
      the binding. */
  lemma InversesExactlyWhenDevicesFree(ops: seq<Op>)
    requires FreshIds(ops)
    ensures (forall n | 0 <= n <= |ops| :: MutualInverses(After(ops, n))) <==> BindsOnlyFreeDevices(ops)
  {
    if BindsOnlyFreeDevices(ops) {
      forall n | 0 <= n <= |ops| ensures MutualInverses(After(ops, n)) {
        FreeDevicesKeepInverses(ops, n);
      }
    } else {
      var i: nat :| i < |ops| && !BindsFreeDevice(ops, i);
      TakenDeviceBreaksInverses(ops, i);
    }
  }

  function ReleaseAll(b: Table, ids: seq<SessionId>): Table
    decreases |ids|
  {
    if ids == [] then b else ReleaseAll(Release(b, ids[0]), ids[1..])
  }

  /** Releasing sessions one after another unbinds exactly them and their devices, so the order
      of the releases cannot be seen afterwards. */
  lemma {:induction false} ReleaseAllEffect(b: Table, ids: seq<SessionId>)
    ensures ReleaseAll(b, ids).sessionDevices == b.sessionDevices - (set s | s in ids)
    ensures ReleaseAll(b, ids).deviceSessions
         == b.deviceSessions - (set s | s in ids && s in b.sessionDevices :: b.sessionDevices[s])
    decreases |ids|
  {
    if ids != [] {
      var next := Release(b, ids[0]);
      ReleaseAllEffect(next, ids[1..]);
      assert forall s :: s in ids <==> s == ids[0] || s in ids[1..];
      var gone := set s | s in ids && s in b.sessionDevices :: b.sessionDevices[s];
      var rest := set s | s in ids[1..] && s in next.sessionDevices :: next.sessionDevices[s];
      forall d ensures d in gone <==> d in rest || (ids[0] in b.sessionDevices && d == b.sessionDevices[ids[0]]) {
        if d in gone {
          var s :| s in ids && s in b.sessionDevices && b.sessionDevices[s] == d;
          assert s == ids[0] || s in next.sessionDevices;
        }
      }
    }
  }
}

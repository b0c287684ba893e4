/** The signed device cookie: `<id>.<unix seconds>.<hex MAC of "<id>.<unix seconds>">`. */
module Cookie {
  import opened Common
  import opened Bindings
  import opened Decimal

  const SECOND: int := 1_000_000_000
  const MAX_AGE: int := 600 * SECOND
  const MAX_AHEAD: int := 300 * SECOND

  // ----- splitting at dots

  function FirstDot(s: string): (i: nat)
    ensures i <= |s| && '.' !in s[..i] && (i < |s| ==> s[i] == '.')
  {
    if s == [] || s[0] == '.' then 0
    else
      var i := FirstDot(s[1..]) + 1;
      assert s[..i] == [s[0]] + s[1..][..i - 1];
      i
  }

  /** strings.Split(s, "."). */
  function Split(s: string): seq<string>
    decreases |s|
  {
    var i := FirstDot(s);
    if i == |s| then [s] else [s[..i]] + Split(s[i + 1..])
  }

  function Join(parts: seq<string>): string
    requires parts != []
  {
    if |parts| == 1 then parts[0] else parts[0] + "." + Join(parts[1..])
  }

  ghost predicate DotFree(parts: seq<string>) {
    forall p <- parts :: '.' !in p
  }

  lemma {:induction false} SplitJoins(s: string)
    ensures Split(s) != [] && DotFree(Split(s)) && Join(Split(s)) == s
    decreases |s|
  {
    var i := FirstDot(s);
    if i < |s| {
      SplitJoins(s[i + 1..]);
      assert Split(s)[1..] == Split(s[i + 1..]);
      assert s == s[..i] + "." + s[i + 1..];
    } else {
      assert s[..i] == s;
    }
  }

  lemma JoinThree(parts: seq<string>)
    requires |parts| == 3
    ensures Join(parts) == parts[0] + "." + parts[1] + "." + parts[2]
  {
    assert parts[1..][1..] == [parts[2]];
    assert Join(parts[1..]) == parts[1] + "." + parts[2];
    assert parts[0] + "." + (parts[1] + "." + parts[2]) == parts[0] + "." + parts[1] + "." + parts[2];
  }

  lemma {:induction false} FirstDotAt(s: string, k: nat)
    requires k < |s| && s[k] == '.' && '.' !in s[..k]
    ensures FirstDot(s) == k
  {
    if k > 0 {
      assert s[0] in s[..k];
      assert s[1..][..k - 1] == s[..k][1..];
      FirstDotAt(s[1..], k - 1);
    }
  }

  lemma SplitAfter(p: string, rest: string)
    requires '.' !in p
    ensures Split(p + "." + rest) == [p] + Split(rest)
  {
    var s := p + "." + rest;
    assert s[..|p|] == p && s[|p| + 1..] == rest;
    FirstDotAt(s, |p|);
  }

  lemma SplitNone(p: string)
    requires '.' !in p
    ensures Split(p) == [p]
  {
    assert forall k | 0 <= k < |p| :: p[k] != '.';
    assert FirstDot(p) == |p|;
  }

  lemma SplitThree(a: string, b: string, c: string)
    requires '.' !in a && '.' !in b && '.' !in c
    ensures Split(a + "." + b + "." + c) == [a, b, c]
  {
    Regroup(a + "." + b, ".", c);
    Regroup(a + ".", b, "." + c);
    Regroup(b, ".", c);
    SplitAfter(a, b + "." + c);
    SplitTwo(b, c);
  }

  lemma SplitTwo(b: string, c: string)
    requires '.' !in b && '.' !in c
    ensures Split(b + "." + c) == [b, c]
  {
    SplitAfter(b, c);
    SplitNone(c);
  }

  // ----- hexadecimal

  const HEX: string := "0123456789abcdef"

  function Hex(bytes: seq<Byte>): string {
    if bytes == [] then "" else [HEX[bytes[0] / 16], HEX[bytes[0] % 16]] + Hex(bytes[1..])
  }

  lemma {:induction false} HexHasNoDot(bytes: seq<Byte>)
    ensures '.' !in Hex(bytes)
  {
    if bytes != [] {
      HexHasNoDot(bytes[1..]);
    }
  }

  lemma HexIndex(i: nat, j: nat)
    requires i < 16 && j < 16 && HEX[i] == HEX[j]
    ensures i == j
  {
  }

  /** Two digits a byte, the high one first. */
  lemma {:induction false} HexDigits(bytes: seq<Byte>, i: nat)
    requires i < |bytes|
    ensures |Hex(bytes)| == 2 * |bytes|
    ensures Hex(bytes)[2 * i] == "0123456789abcdef"[bytes[i] / 16]
    ensures Hex(bytes)[2 * i + 1] == "0123456789abcdef"[bytes[i] % 16]
  {
    if |bytes| > 1 {
      HexDigits(bytes[1..], if i > 0 then i - 1 else 0);
    }
  }

  lemma {:induction false} HexInjective(a: seq<Byte>, b: seq<Byte>)
    requires Hex(a) == Hex(b)
    ensures a == b
  {
    HexLength(a);
    HexLength(b);
    if a != [] {
      assert Hex(a)[0] == Hex(b)[0] && Hex(a)[1] == Hex(b)[1] && Hex(a)[2..] == Hex(b)[2..];
      HexIndex(a[0] / 16, b[0] / 16);
      HexIndex(a[0] % 16, b[0] % 16);
      HexInjective(a[1..], b[1..]);
      assert a == [a[0]] + a[1..] && b == [b[0]] + b[1..];
    }
  }

  lemma {:induction false} HexLength(bytes: seq<Byte>)
    ensures |Hex(bytes)| == 2 * |bytes|
  {
    if bytes != [] {
      HexLength(bytes[1..]);
    }
  }

  // ----- the manager

  function Payload(id: string, ts: int): string {
    id + "." + Print(ts)
  }

  /** `mac` stands for HMAC-SHA-256 and may be any function of secret and message. */
  datatype Signer = Signer(secret: seq<Byte>, mac: (seq<Byte>, string) -> seq<Byte>) {
    function Sign(id: string, ts: int): string {
      Hex(mac(secret, Payload(id, ts)))
    }

    function CookieFor(id: string, ts: int): string {
      Payload(id, ts) + "." + Sign(id, ts)
    }

    function Verify(cookie: string, now: int): Option<string> {
      var parts := Split(cookie);
      if |parts| != 3 then None
      else
        match ParseInt(parts[1])
        case None => None
        case Some(ts) =>
          if now - ts * SECOND > MAX_AGE || ts * SECOND - now > MAX_AHEAD then None
          else if parts[2] != Sign(parts[0], ts) then None
          else Some(parts[0])
    }

    /** Keeps the id of a valid cookie, or issues a cookie for a fresh id. */
    function GetOrSet(cookie: Option<string>, newId: string, now: int): (string, Option<string>) {
      if cookie.Some? && Verify(cookie.value, now).Some? then (Verify(cookie.value, now).value, None)
      else (newId, Some(CookieFor(newId, now / SECOND)))
    }
  }

  predicate InWindow(ts: int, now: int) {
    now - 600 * SECOND <= ts * SECOND <= now + 300 * SECOND
  }

  /** A printed cookie is accepted with its own id exactly while its time is at most ten minutes
      past and five minutes ahead. */
  lemma PrintedCookieAccepted(m: Signer, id: string, ts: int, now: int)
    requires '.' !in id && IsInt64(ts)
    ensures m.Verify(m.CookieFor(id, ts), now) == if InWindow(ts, now) then Some(id) else None
  {
    PrintHasNo(ts, '.');
    PrintParses(ts);
    HexHasNoDot(m.mac(m.secret, Payload(id, ts)));
    SplitThree(id, Print(ts), m.Sign(id, ts));
  }

  /** The values that are accepted at all: an id, any spelling of a timestamp in the window, and
      the signature of that id with that timestamp. */
  lemma AcceptedExactly(m: Signer, cookie: string, now: int, id: string)
    ensures m.Verify(cookie, now) == Some(id) <==> exists spelling: string :: Accepts(m, cookie, now, id, spelling)
  {
    if m.Verify(cookie, now) == Some(id) {
      SplitJoins(cookie);
      var parts := Split(cookie);
      JoinThree(parts);
      assert parts[1] in parts && parts[0] in parts;
      assert Accepts(m, cookie, now, id, parts[1]);
    }
    if spelling: string :| Accepts(m, cookie, now, id, spelling) {
      var ts := ParseInt(spelling).value;
      HexHasNoDot(m.mac(m.secret, Payload(id, ts)));
      SplitThree(id, spelling, m.Sign(id, ts));
    }
  }

  predicate Accepts(m: Signer, cookie: string, now: int, id: string, spelling: string) {
    && '.' !in id && '.' !in spelling && ParseInt(spelling).Some?
    && InWindow(ParseInt(spelling).value, now)
    && cookie == id + "." + spelling + "." + Hex(m.mac(m.secret, id + "." + Print(ParseInt(spelling).value)))
  }

  /** The last dot of a payload separates id and timestamp, whatever the id. */
  lemma PayloadInjective(id: string, ts: int, id': string, ts': int)
    requires Payload(id, ts) == Payload(id', ts')
    ensures id == id' && ts == ts'
  {
    var p := Payload(id, ts);
    LastDot(id, ts, id', ts');
    LastDot(id', ts', id, ts);
    assert p[..|id|] == id && p[..|id'|] == id';
    assert p[|id| + 1..] == Print(ts) && p[|id'| + 1..] == Print(ts');
    PrintInjective(ts, ts');
  }

  lemma LastDot(id: string, ts: int, id': string, ts': int)
    requires Payload(id, ts) == Payload(id', ts')
    ensures |id'| <= |id|
  {
    var p := Payload(id, ts);
    PrintHasNo(ts, '.');
    forall k | |id| < k < |p| ensures p[k] != '.' {
      assert p[k] == Print(ts)[k - |id| - 1];
    }
    assert p[|id'|] == '.';
  }

  /** A signature cannot be moved: an accepted value that carries the signature of an issued
      cookie has that cookie's id and time and is accepted exactly as long, unless the MAC
      collides on the two payloads. */
  lemma SignatureBindsCookie(m: Signer, cookie: string, now: int, id: string, spelling: string, id0: string, ts0: int)
    requires Accepts(m, cookie, now, id, spelling)
    requires var ts := ParseInt(spelling).value;
      m.Sign(id, ts) == m.Sign(id0, ts0)
      && (m.mac(m.secret, Payload(id, ts)) == m.mac(m.secret, Payload(id0, ts0)) ==>
            Payload(id, ts) == Payload(id0, ts0))
    ensures id == id0 && ParseInt(spelling) == Some(ts0)
    ensures forall t :: m.Verify(cookie, t) == m.Verify(m.CookieFor(id0, ts0), t)
  {
    var ts := ParseInt(spelling).value;
    HexInjective(m.mac(m.secret, Payload(id, ts)), m.mac(m.secret, Payload(id0, ts0)));
    PayloadInjective(id, ts, id0, ts0);
    HexHasNoDot(m.mac(m.secret, Payload(id, ts)));
    SplitThree(id, spelling, m.Sign(id, ts));
    forall t ensures m.Verify(cookie, t) == m.Verify(m.CookieFor(id0, ts0), t) {
      PrintedCookieAccepted(m, id0, ts0, t);
    }
  }

  /** The cookie in the browser after the response. */
  function Held(presented: Option<string>, issued: Option<string>): Option<string> {
    if issued.Some? then issued else presented
  }

  /** Whatever a browser presents, nothing included: a cookie is set if and only if none was
      presented or the one presented does not verify, it is set for the new id, and afterwards the
      browser holds a cookie that verifies to exactly the id that the request is given. */
  lemma CookieSetExactly(m: Signer, presented: Option<string>, newId: string, now: int)
    requires '.' !in newId && IsInt64(now / SECOND)
    ensures var (id, issued) := m.GetOrSet(presented, newId, now);
      && (issued.Some? <==> presented == None || m.Verify(presented.value, now) == None)
      && (issued.Some? ==> id == newId)
      && Held(presented, issued).Some? && m.Verify(Held(presented, issued).value, now) == Some(id)
  {
    PrintedCookieAccepted(m, newId, now / SECOND, now);
  }

  /** A device keeps its id, without a new cookie, as long as the cookie it holds verifies; one that
      was issued now does so until its ten minutes, counted from the whole second, are over. */
  lemma IssuedCookieKeepsDevice(m: Signer, presented: Option<string>, newId: string, now: int, later: int,
                                otherId: string)
    requires '.' !in newId && IsInt64(now / SECOND) && now <= later
    ensures var (id, issued) := m.GetOrSet(presented, newId, now);
      var held := Held(presented, issued);
      && held.Some?
      && (issued.Some? ==> (m.Verify(held.value, later).Some? <==> later <= now / SECOND * SECOND + 600 * SECOND))
      && (m.Verify(held.value, later).Some? ==> m.GetOrSet(held, otherId, later) == (id, None))
      && (m.Verify(held.value, later).None? ==>
            m.GetOrSet(held, otherId, later) == (otherId, Some(m.CookieFor(otherId, later / SECOND))))
  {
    CookieSetExactly(m, presented, newId, now);
    PrintedCookieAccepted(m, newId, now / SECOND, later);
    if m.GetOrSet(presented, newId, now).1.None? {
      if m.Verify(presented.value, later).Some? {
        VerifiesToOne(m, presented.value, now, later);
      }
    }
  }

  /** A cookie verifies to one id, whenever it verifies. */
  lemma VerifiesToOne(m: Signer, cookie: string, now: int, later: int)
    requires m.Verify(cookie, now).Some? && m.Verify(cookie, later).Some?
    ensures m.Verify(cookie, now) == m.Verify(cookie, later)
  {
  }

  /** GetOrSet never renews a cookie, so a session may outlive the device id it is bound to: while
      the session lives, its browser can come back as a device without a session exactly if the
      age of the cookie at creation and the lifetime of the session exceed ten minutes. */
  lemma DeviceForgottenExactly(m: Signer, b: Table, id: DeviceId, newId: DeviceId, issued: int, created: int, ttl: nat)
    requires '.' !in id && IsInt64(issued / SECOND) && issued <= created
    requires HasSession(b, id) && !HasSession(b, newId)
    ensures (exists later :: created <= later <= created + ttl
                             && !HasSession(b, Returning(m, id, newId, issued, later)))
       <==> created - issued / SECOND * SECOND + ttl > 600 * SECOND
  {
    forall later | created <= later
      ensures Returning(m, id, newId, issued, later)
           == if later <= issued / SECOND * SECOND + 600 * SECOND then id else newId
    {
      PrintedCookieAccepted(m, id, issued / SECOND, later);
    }
    assert created + ttl > issued / SECOND * SECOND + 600 * SECOND ==>
      !HasSession(b, Returning(m, id, newId, issued, created + ttl));
  }

  /** The device of a browser that presents at `later` the cookie it was issued. */
  function Returning(m: Signer, id: DeviceId, newId: DeviceId, issued: int, later: int): DeviceId {
    m.GetOrSet(Some(m.CookieFor(id, issued / SECOND)), newId, later).0
  }
}

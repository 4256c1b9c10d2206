/**
 * Value types of the token lifecycle manager (auth.py): the read-only access
 * token view, the access/refresh token pair built from a token-endpoint reply
 * or a stored record, the device grant of RFC 8628 section 3.2, and the
 * selection of the active pairs (valid ones, latest primary expiry first).
 *
 * Instants are whole seconds on one integer clock; `now` is always a parameter.
 */
module Tokens {
  import opened Base

  /** Lifetime assumed when a reply gives none (auth.py:64, 74, 121). */
  const DefaultLifetime := 300
  /** Poll interval assumed when the device reply gives none (auth.py:127). */
  const DefaultPollInterval := 5

  type Positive = n: int | n >= 1 witness 1

  /** A token scheme as a pair holds it: never empty, "Bearer" by default. */
  type TokenType = s: string | s != "" witness "Bearer"

  /** `AccessToken`: what callers of the handler see. */
  datatype AccessToken = AccessToken(accessToken: string, tokenType: string, scope: Option<string>, notAfter: int)

  /** `AccessToken.is_valid`: the primary expiry lies in the future. */
  predicate Usable(t: AccessToken, now: int) {
    now < t.notAfter
  }

  /**
   * A token record as a dictionary: either a token-endpoint reply (which carries
   * lifetimes) or a stored entry (which carries instants). `None` stands for a
   * key that is absent or null; a lifetime of 0 is as good as absent, since
   * Python treats the number 0 as false.
   */
  datatype TokenRecord = TokenRecord(
    accessToken: string,
    refreshToken: Option<string>,
    tokenType: Option<string>,
    scope: Option<string>,
    notAfter: Option<int>,
    extNotAfter: Option<int>,
    expiresIn: Option<int>,
    extExpiresIn: Option<int>)

  /** `_AccessTokenAndRefreshToken`: the unit kept in the credential list. */
  datatype Pair = Pair(
    accessToken: string,
    refreshToken: Option<string>,
    tokenType: TokenType,
    scope: Option<string>,
    notAfter: int,
    extNotAfter: int)

  /** A given lifetime, or the default when it is missing or 0. */
  function Lifetime(given: Option<int>): int {
    if given.Some? && given.value != 0 then given.value else DefaultLifetime
  }

  /** A stored instant wins; otherwise the instant is `now` plus the lifetime. */
  function Instant(stored: Option<int>, lifetime: Option<int>, now: int): int {
    if stored.Some? then stored.value else now + Lifetime(lifetime)
  }

  /**
   * The constructor of `_AccessTokenAndRefreshToken` at clock reading `now`:
   * token, refresh token and scope are copied, and a stored instant wins over
   * a lifetime (the defaults are in `NewPairDefaults`).
   */
  function NewPair(rec: TokenRecord, now: int): (p: Pair)
    ensures p.accessToken == rec.accessToken && p.refreshToken == rec.refreshToken && p.scope == rec.scope
    ensures rec.notAfter.Some? ==> p.notAfter == rec.notAfter.value
    ensures rec.extNotAfter.Some? ==> p.extNotAfter == rec.extNotAfter.value
  {
    Pair(rec.accessToken,
         rec.refreshToken,
         if rec.tokenType.Some? && rec.tokenType.value != "" then rec.tokenType.value else "Bearer",
         rec.scope,
         Instant(rec.notAfter, rec.expiresIn, now),
         Instant(rec.extNotAfter, rec.extExpiresIn, now))
  }

  /** `_AccessTokenAndRefreshToken.is_valid`: tests the EXTENDED expiry. */
  predicate IsValid(p: Pair, now: int) {
    now < p.extNotAfter
  }

  /**
   * `_AccessTokenAndRefreshToken.as_dict`: the stored form of a pair. It keeps
   * instants rather than lifetimes, so building a pair from it gives back all
   * six fields at any clock reading, a missing refresh token included.
   */
  function AsDict(p: Pair): (d: TokenRecord)
    ensures forall now :: NewPair(d, now) == p
  {
    TokenRecord(p.accessToken, p.refreshToken, Some(p.tokenType), p.scope,
                Some(p.notAfter), Some(p.extNotAfter), None, None)
  }

  /** `_AccessTokenAndRefreshToken.get_access_token`: the view, while the pair is valid. */
  function View(p: Pair, now: int): (v: Option<AccessToken>)
    ensures v.Some? <==> IsValid(p, now)
    ensures v.Some? ==> v.value.notAfter == p.notAfter && v.value.accessToken == p.accessToken
                        && v.value.tokenType == p.tokenType && v.value.scope == p.scope
  {
    if IsValid(p, now) then Some(AccessToken(p.accessToken, p.tokenType, p.scope, p.notAfter)) else None
  }

  /**
   * The defaults of the constructor: a missing or empty scheme is "Bearer", and
   * a missing or zero lifetime means 300 seconds from now.
   */
  lemma NewPairDefaults(rec: TokenRecord, now: int)
    ensures var p := NewPair(rec, now);
      && (rec.tokenType == None || rec.tokenType == Some("") ==> p.tokenType == "Bearer")
      && (rec.tokenType.Some? && rec.tokenType.value != "" ==> p.tokenType == rec.tokenType.value)
      && (rec.notAfter.None? && rec.expiresIn.Some? && rec.expiresIn.value != 0 ==>
            p.notAfter == now + rec.expiresIn.value)
      && (rec.extNotAfter.None? && rec.extExpiresIn.Some? && rec.extExpiresIn.value != 0 ==>
            p.extNotAfter == now + rec.extExpiresIn.value)
      && (rec.notAfter.None? && rec.expiresIn in {None, Some(0)} ==> p.notAfter == now + 300)
      && (rec.extNotAfter.None? && rec.extExpiresIn in {None, Some(0)} ==> p.extNotAfter == now + 300)
  {
  }

  /**
   * The view of a valid pair is usable exactly while its PRIMARY expiry lies
   * ahead: a pair may still be valid by its extended expiry while the access
   * token it hands out is already expired.
   */
  lemma ViewUsable(p: Pair, now: int)
    requires IsValid(p, now)
    ensures View(p, now).Some?
    ensures Usable(View(p, now).value, now) <==> now < p.notAfter
  {
  }

  /**
   * The extended expiry is not guaranteed to follow the primary one: a reply
   * with a one-hour `expires_in` and no `ext_expires_in` yields a pair that is
   * no longer valid after 300 seconds although its access token still is.
   */
  lemma ExtendedMayPrecedePrimary(now: int)
    ensures var p := NewPair(TokenRecord("at", None, None, None, None, None, Some(3600), None), now);
      p.extNotAfter < p.notAfter && !IsValid(p, now + 300) && now + 300 < p.notAfter
  {
  }

  /** `_DeviceToken`: a pending device authorization grant. */
  datatype DeviceToken = DeviceToken(
    deviceCode: string,
    userCode: string,
    verificationUri: string,
    pollInterval: Positive,
    expiresIn: int,
    notAfter: int)

  /** The device authorization reply (RFC 8628 section 3.2); `interval` as whole seconds. */
  datatype DeviceReply = DeviceReply(
    deviceCode: string,
    userCode: string,
    verificationUri: string,
    expiresIn: Option<int>,
    interval: Option<nat>)

  /** The constructor of `_DeviceToken` at clock reading `now`. */
  function NewDeviceToken(reply: DeviceReply, now: int): (g: DeviceToken)
    ensures g.notAfter == now + g.expiresIn
    ensures g.deviceCode == reply.deviceCode && g.userCode == reply.userCode
            && g.verificationUri == reply.verificationUri
    ensures reply.expiresIn in {None, Some(0)} ==> g.expiresIn == 300
    ensures reply.interval in {None, Some(0)} ==> g.pollInterval == 5
    ensures reply.expiresIn.Some? && reply.expiresIn.value != 0 ==> g.expiresIn == reply.expiresIn.value
    ensures reply.interval.Some? && reply.interval.value != 0 ==> g.pollInterval == reply.interval.value
  {
    var interval: Positive := if reply.interval.Some? && reply.interval.value != 0
                              then reply.interval.value else DefaultPollInterval;
    DeviceToken(reply.deviceCode, reply.userCode, reply.verificationUri,
                interval, Lifetime(reply.expiresIn), now + Lifetime(reply.expiresIn))
  }

  /** `_DeviceToken.is_valid`. */
  predicate GrantOpen(g: DeviceToken, now: int) {
    now < g.notAfter
  }

  /**
   * A grant issued at `now` stays open for exactly `expires_in` seconds, or
   * 300 when the reply gives none.
   */
  lemma GrantOpenWindow(reply: DeviceReply, now: int, t: int)
    ensures GrantOpen(NewDeviceToken(reply, now), t)
            <==> t - now < (if reply.expiresIn.Some? && reply.expiresIn.value != 0 then reply.expiresIn.value else 300)
  {
  }

  // ---------------------------------------------------------------------------
  // Active credentials: `[t for t in creds if t.is_valid()]`, sorted by
  // `not_after` descending. Python's sort is stable, also with `reverse=True`.
  // ---------------------------------------------------------------------------

  predicate SortedByExpiry(s: seq<Pair>) {
    forall i, j :: 0 <= i < j < |s| ==> s[i].notAfter >= s[j].notAfter
  }

  /** The comprehension: the valid pairs in list order. */
  function ValidOnly(creds: seq<Pair>, now: int): (r: seq<Pair>)
    ensures forall p :: p in r <==> p in creds && IsValid(p, now)
    ensures |r| <= |creds|
  {
    if creds == [] then []
    else (if IsValid(creds[0], now) then [creds[0]] else []) + ValidOnly(creds[1..], now)
  }

  /** The comprehension keeps every valid pair as often as the list holds it, and no other. */
  lemma {:induction false} ValidOnlyCounts(creds: seq<Pair>, now: int, p: Pair)
    ensures multiset(ValidOnly(creds, now))[p] == if IsValid(p, now) then multiset(creds)[p] else 0
  {
    if creds != [] {
      assert creds == [creds[0]] + creds[1..];
      ValidOnlyCounts(creds[1..], now, p);
    }
  }

  /** One step of the comprehension. */
  lemma ValidOnlyHead(s: seq<Pair>, now: int)
    requires s != []
    ensures ValidOnly(s, now) == (if IsValid(s[0], now) then [s[0]] else []) + ValidOnly(s[1..], now)
  {
  }

  lemma ConcatAssoc(x: seq<Pair>, y: seq<Pair>, z: seq<Pair>)
    ensures x + (y + z) == (x + y) + z
  {
  }

  /** The comprehension keeps list order: filtering a concatenation filters each part. */
  lemma {:induction false} ValidOnlyAppend(a: seq<Pair>, b: seq<Pair>, now: int)
    ensures ValidOnly(a + b, now) == ValidOnly(a, now) + ValidOnly(b, now)
  {
    if a == [] {
      assert a + b == b;
    } else {
      var head := if IsValid(a[0], now) then [a[0]] else [];
      assert (a + b)[0] == a[0] && (a + b)[1..] == a[1..] + b;
      ValidOnlyHead(a + b, now);
      ValidOnlyHead(a, now);
      ValidOnlyAppend(a[1..], b, now);
      ConcatAssoc(head, ValidOnly(a[1..], now), ValidOnly(b, now));
    }
  }

  /** Stable insertion: `p` goes before the first element whose expiry is not later. */
  function Insert(p: Pair, s: seq<Pair>): (r: seq<Pair>)
    requires SortedByExpiry(s)
    ensures SortedByExpiry(r)
    ensures multiset(r) == multiset(s) + multiset{p}
  {
    if s == [] || p.notAfter >= s[0].notAfter then
      ConsSorted(p, s);
      [p] + s
    else
      var rest := Insert(p, s[1..]);
      InsertBehind(p, s, rest);
      [s[0]] + rest
  }

  /** Inserting behind the head keeps the head first. */
  lemma InsertBehind(p: Pair, s: seq<Pair>, rest: seq<Pair>)
    requires SortedByExpiry(s) && s != [] && p.notAfter < s[0].notAfter
    requires SortedByExpiry(rest) && multiset(rest) == multiset(s[1..]) + multiset{p}
    ensures SortedByExpiry([s[0]] + rest)
    ensures multiset([s[0]] + rest) == multiset(s) + multiset{p}
  {
    assert s == [s[0]] + s[1..];
    assert multiset(s) == multiset{s[0]} + multiset(s[1..]);
    forall x | x in rest ensures x.notAfter <= s[0].notAfter {
      assert x in multiset(rest);
      assert x == p || x in s[1..];
    }
    ConsSorted(s[0], rest);
    assert multiset([s[0]] + rest) == multiset{s[0]} + multiset(rest);
  }

  lemma ConsSorted(h: Pair, t: seq<Pair>)
    requires SortedByExpiry(t)
    requires forall x :: x in t ==> x.notAfter <= h.notAfter
    ensures SortedByExpiry([h] + t)
  {
    var r := [h] + t;
    forall i, j | 0 <= i < j < |r| ensures r[i].notAfter >= r[j].notAfter {
      if i > 0 {
        assert r[i] == t[i - 1] && r[j] == t[j - 1];
      } else {
        assert r[j] == t[j - 1];
        assert t[j - 1] in t;
      }
    }
  }

  /** `sorted(..., key=not_after, reverse=True)`, stable. */
  function SortByExpiry(s: seq<Pair>): (r: seq<Pair>)
    ensures SortedByExpiry(r)
    ensures multiset(r) == multiset(s)
  {
    if s == [] then []
    else
      assert s == [s[0]] + s[1..];
      Insert(s[0], SortByExpiry(s[1..]))
  }

  /** `__get_active_credentials`. */
  function Active(creds: seq<Pair>, now: int): (r: seq<Pair>)
    ensures SortedByExpiry(r)
    ensures multiset(r) == multiset(ValidOnly(creds, now))
    ensures forall p :: p in r <==> p in creds && IsValid(p, now)
  {
    var r := SortByExpiry(ValidOnly(creds, now));
    assert forall p :: p in r <==> p in ValidOnly(creds, now) by {
      forall p ensures p in r <==> p in ValidOnly(creds, now) {
        assert p in r <==> p in multiset(r);
      }
    }
    r
  }

  /** The first active pair has the latest primary expiry among all valid pairs. */
  lemma ActiveFirstIsLatest(creds: seq<Pair>, now: int, p: Pair)
    requires p in creds && IsValid(p, now)
    ensures Active(creds, now) != []
    ensures Active(creds, now)[0].notAfter >= p.notAfter
  {
    var a := Active(creds, now);
    var i :| 0 <= i < |a| && a[i] == p;
    assert i == 0 || a[0].notAfter >= a[i].notAfter;
  }

  lemma {:induction false} ValidOnlyOfValid(s: seq<Pair>, now: int)
    requires forall p :: p in s ==> IsValid(p, now)
    ensures ValidOnly(s, now) == s
  {
    if s != [] {
      ValidOnlyOfValid(s[1..], now);
    }
  }

  lemma {:induction false} SortOfSorted(s: seq<Pair>)
    requires SortedByExpiry(s)
    ensures SortByExpiry(s) == s
  {
    if s != [] {
      SortOfSorted(s[1..]);
    }
  }

  /** Selecting the active pairs twice selects the same list as once. */
  lemma ActiveIdempotent(creds: seq<Pair>, now: int)
    ensures Active(Active(creds, now), now) == Active(creds, now)
  {
    var a := Active(creds, now);
    ValidOnlyOfValid(a, now);
    SortOfSorted(a);
  }
}

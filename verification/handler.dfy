/**
 * The OAuth 2.0 device code handler of auth.py: the device authorization grant
 * of RFC 8628 (sections 3.1, 3.4 and 3.5) plus the refresh exchange of
 * section 6 of RFC 6749, over an in-memory credential list that is loaded
 * from and saved to a stored record.
 *
 * Each HTTP reply is a parameter (an oracle); the clock is a parameter and
 * every call reports the clock reading it ends at. The pure functions below
 * specify the calls; the class `DeviceCodeHandler` performs them on its
 * fields and is proved to agree with them.
 */
module Handler {
  import opened Base
  import opened Tokens

  /** The one token-endpoint error that keeps the polling loop going. */
  const AuthorizationPending := "authorization_pending"

  /**
   * A JSON reply of the token endpoint: one carrying an `access_token` key,
   * one carrying an `error` key, or one carrying neither.
   */
  datatype Reply = Issued(record: TokenRecord) | Error(code: string) | Empty

  /** `response.get('access_token')` is truthy. */
  predicate CarriesToken(r: Reply) {
    r.Issued? && r.record.accessToken != ""
  }

  /**
   * What the endpoints would answer during one `get_access_token` call: the
   * reply to a refresh request, the device authorization reply, and the reply
   * to the k-th poll of the token endpoint.
   */
  datatype Exchange = Exchange(refresh: Reply, device: DeviceReply, poll: nat -> Reply)

  /** The handler's two mutable fields: `__credentials` and `__device_tokens`. */
  datatype HState = HState(creds: seq<Pair>, pending: map<string, DeviceToken>)

  // ---------------------------------------------------------------------------
  // Refresh exchange (`__get_refresh_token`)
  // ---------------------------------------------------------------------------

  datatype RefreshResult = RefreshResult(pair: Option<Pair>, creds: seq<Pair>)

  function Refreshed(creds: seq<Pair>, p: Pair, now: int, reply: Reply): RefreshResult {
    if !IsValid(p, now) then RefreshResult(None, creds)
    else if CarriesToken(reply) && IsValid(NewPair(reply.record, now), now) then
      var q := NewPair(reply.record, now);
      RefreshResult(Some(q), Active(creds, now) + [q])
    else RefreshResult(None, creds)
  }

  /** A pair that is no longer valid is never sent: the reply is not consulted. */
  lemma RefreshExpiredMakesNoRequest(creds: seq<Pair>, p: Pair, now: int, r1: Reply, r2: Reply)
    requires !IsValid(p, now)
    ensures Refreshed(creds, p, now, r1) == Refreshed(creds, p, now, r2) == RefreshResult(None, creds)
  {
  }

  /**
   * A refresh succeeds exactly when the pair is valid and the reply yields a
   * valid new pair; the new pair is appended to the active pairs and the old
   * pair is kept; otherwise nothing changes.
   */
  lemma RefreshOutcome(creds: seq<Pair>, p: Pair, now: int, reply: Reply)
    ensures var r := Refreshed(creds, p, now, reply);
      && (r.pair.Some? <==> IsValid(p, now) && CarriesToken(reply) && IsValid(NewPair(reply.record, now), now))
      && (r.pair.Some? ==> r.creds == Active(creds, now) + [r.pair.value] && (p in creds ==> p in r.creds))
      && (r.pair.None? ==> r.creds == creds)
  {
  }

  // ---------------------------------------------------------------------------
  // Device code polling (`__get_access_token_for_device_code`)
  // ---------------------------------------------------------------------------

  datatype Step = Step(result: Outcome<Option<AccessToken>>, state: HState, clock: int)

  /**
   * How the polling loop ends: a pair was issued, polling stopped with nothing
   * (the grant expired, or an error other than `authorization_pending`), or a
   * reply had neither `access_token` nor `error`.
   */
  datatype PollEnd = Granted(pair: Pair) | Stopped | MissingError
  datatype Polling = Polling(end: PollEnd, clock: int)

  /**
   * The polling loop from clock reading `t`, the next reply being `poll(k)`:
   * while the grant is open, sleep one interval, then ask.
   */
  function Polled(g: DeviceToken, t: int, k: nat, poll: nat -> Reply): Polling
    decreases g.notAfter - t
  {
    if !GrantOpen(g, t) then Polling(Stopped, t)
    else
      var t' := t + g.pollInterval;
      var reply := poll(k);
      if CarriesToken(reply) then Polling(Granted(NewPair(reply.record, t')), t')
      else if reply == Error(AuthorizationPending) then Polled(g, t', k + 1, poll)
      else if reply.Error? then Polling(Stopped, t')
      else Polling(MissingError, t')
  }

  /** One turn of the polling loop, for an open grant. */
  lemma PolledStep(g: DeviceToken, t: int, k: nat, poll: nat -> Reply)
    requires GrantOpen(g, t)
    ensures var t' := t + g.pollInterval;
      var reply := poll(k);
      Polled(g, t, k, poll)
      == if CarriesToken(reply) then Polling(Granted(NewPair(reply.record, t')), t')
         else if reply == Error(AuthorizationPending) then Polled(g, t', k + 1, poll)
         else if reply.Error? then Polling(Stopped, t')
         else Polling(MissingError, t')
  {
  }

  /** The handler's state and answer once polling has ended. */
  function Settled(st: HState, q: Polling): Step {
    match q.end
    case Granted(p) => Step(Returned(View(p, q.clock)), st.(creds := Active(st.creds, q.clock) + [p]), q.clock)
    case Stopped => Step(Returned(None), st, q.clock)
    case MissingError => Step(Raised(KeyError("error")), st, q.clock)
  }

  /** Redeeming a device code: unknown codes give nothing; known ones are removed, then polled. */
  function Redeemed(st: HState, code: string, now: int, poll: nat -> Reply): Step {
    if code !in st.pending then Step(Returned(None), st, now)
    else Settled(st.(pending := st.pending - {code}), Polled(st.pending[code], now, 0, poll))
  }

  /**
   * Polling asks only while the grant is open, so it ends within one interval
   * after the grant's expiry; a pair it issues was built from a reply at the
   * final clock reading, and a closed grant stops at once.
   */
  lemma {:induction false} PolledBounds(g: DeviceToken, t: int, k: nat, poll: nat -> Reply)
    ensures var q := Polled(g, t, k, poll);
      && (GrantOpen(g, t) ==> t < q.clock < g.notAfter + g.pollInterval)
      && (!GrantOpen(g, t) ==> q == Polling(Stopped, t))
      && (q.end.Granted? ==> exists j: nat :: j >= k && CarriesToken(poll(j)) && q.end.pair == NewPair(poll(j).record, q.clock))
    decreases g.notAfter - t
  {
    if GrantOpen(g, t) && !CarriesToken(poll(k)) && poll(k) == Error(AuthorizationPending) {
      PolledBounds(g, t + g.pollInterval, k + 1, poll);
    }
  }

  /**
   * RFC 8628 section 3.5 asks a client told `slow_down` to keep polling at a
   * longer interval; this loop stops instead, with nothing, one interval later.
   */
  lemma SlowDownIsTerminal(g: DeviceToken, t: int, k: nat, poll: nat -> Reply)
    requires GrantOpen(g, t) && poll(k) == Error("slow_down")
    ensures Polled(g, t, k, poll) == Polling(Stopped, t + g.pollInterval)
  {
  }

  /**
   * Redeeming either issues a pair `p` (appended to the active pairs, and its
   * view returned) or leaves the credentials as they were and returns nothing
   * or raises the missing-`error` KeyError; either way the code is no longer
   * pending and no other grant is touched.
   */
  lemma RedeemEffect(st: HState, code: string, now: int, poll: nat -> Reply)
    ensures var r := Redeemed(st, code, now, poll);
      && r.state.pending == st.pending - {code}
      && (|| (exists p: Pair :: r.result == Returned(View(p, r.clock)) && r.state.creds == Active(st.creds, r.clock) + [p])
          || (r.state.creds == st.creds && r.result in {Returned(None), Raised(KeyError("error"))}))
  {
    if code in st.pending {
      var q := Polled(st.pending[code], now, 0, poll);
      if q.end.Granted? {
        var r := Redeemed(st, code, now, poll);
        assert r.result == Returned(View(q.end.pair, r.clock));
      }
    }
  }

  /** A device code can be redeemed at most once: a second attempt finds nothing. */
  lemma RedeemAtMostOnce(st: HState, code: string, now: int, poll: nat -> Reply, later: int, poll2: nat -> Reply)
    ensures var first := Redeemed(st, code, now, poll);
      && code !in first.state.pending
      && Redeemed(first.state, code, later, poll2) == Step(Returned(None), first.state, later)
  {
    RedeemEffect(st, code, now, poll);
  }

  /**
   * The scenario of three `authorization_pending` replies followed by a token:
   * the fourth poll issues a pair, whose view is returned at clock now + 20.
   */
  lemma PendingThriceThenIssued(now: int)
    ensures var rec := TokenRecord("at", Some("rt"), None, None, None, None, None, None);
      var poll := (k: nat) => if k < 3 then Error(AuthorizationPending) else Issued(rec);
      var st := HState([], map["dc" := NewDeviceToken(DeviceReply("dc", "uc", "uri", None, None), now)]);
      var r := Redeemed(st, "dc", now, poll);
      && r.clock == now + 20
      && r.result == Returned(Some(AccessToken("at", "Bearer", None, now + 320)))
      && r.state == HState([NewPair(rec, now + 20)], map[])
  {
    var rec := TokenRecord("at", Some("rt"), None, None, None, None, None, None);
    var poll := (k: nat) => if k < 3 then Error(AuthorizationPending) else Issued(rec);
    var g := NewDeviceToken(DeviceReply("dc", "uc", "uri", None, None), now);
    assert Polled(g, now, 0, poll) == Polled(g, now + 5, 1, poll);
    assert Polled(g, now + 5, 1, poll) == Polled(g, now + 10, 2, poll);
    assert Polled(g, now + 10, 2, poll) == Polled(g, now + 15, 3, poll);
    assert Polled(g, now + 15, 3, poll) == Polling(Granted(NewPair(rec, now + 20)), now + 20);
    assert Active([], now + 20) == [];
    assert map["dc" := g] - {"dc"} == map[];
  }

  /**
   * The `while deviceToken.is_valid()` loop: sleep one interval, ask, and stop
   * at the first reply that is not `authorization_pending`.
   */
  method PollGrant(grant: DeviceToken, now: int, poll: nat -> Reply) returns (q: Polling)
    ensures q == Polled(grant, now, 0, poll)
  {
    var t, k := now, 0;
    while GrantOpen(grant, t)
      invariant Polled(grant, t, k, poll) == Polled(grant, now, 0, poll)
      decreases grant.notAfter - t
    {
      PolledStep(grant, t, k, poll);
      t := t + grant.pollInterval;
      var response := poll(k);
      k := k + 1;
      if CarriesToken(response) {
        return Polling(Granted(NewPair(response.record, t)), t);
      } else if response == Error(AuthorizationPending) {
      } else if response.Error? {
        return Polling(Stopped, t);
      } else {
        return Polling(MissingError, t);
      }
    }
    return Polling(Stopped, t);
  }

  // ---------------------------------------------------------------------------
  // `get_access_token`
  // ---------------------------------------------------------------------------

  /** The result of one call; `prompted` is set when a device code was requested and shown. */
  datatype Answer = Answer(result: Outcome<Option<AccessToken>>, state: HState, clock: int, prompted: bool)

  /** `__get_device_code` followed by `__get_access_token_for_device_code`. */
  function DeviceFlow(st: HState, now: int, net: Exchange): Answer {
    var g := NewDeviceToken(net.device, now);
    var s := Redeemed(st.(pending := st.pending[g.deviceCode := g]), g.deviceCode, now, net.poll);
    Answer(s.result, s.state, s.clock, true)
  }

  /**
   * `get_access_token(silently)`. The top active pair's view is returned while
   * its primary expiry lies ahead; otherwise a refresh is tried, and unless it
   * failed on a silent call, the device flow follows, even after a successful
   * refresh.
   */
  function Answered(st: HState, silently: bool, now: int, net: Exchange): Answer {
    var tokens := Active(st.creds, now);
    if |tokens| > 0 && now < tokens[0].notAfter then Answer(Returned(View(tokens[0], now)), st, now, false)
    else if |tokens| > 0 then
      var rf := Refreshed(st.creds, tokens[0], now, net.refresh);
      if rf.pair.None? && silently then Answer(Returned(None), st.(creds := rf.creds), now, false)
      else DeviceFlow(st.(creds := rf.creds), now, net)
    else if silently then Answer(Returned(None), st, now, false)
    else DeviceFlow(st, now, net)
  }

  /**
   * The call returns without showing a device code in exactly three cases:
   * the top active pair is still usable (its view is returned), or the call is
   * silent and there is no active pair, or it is silent and the refresh failed.
   */
  lemma NoPromptCases(st: HState, silently: bool, now: int, net: Exchange)
    ensures var tokens := Active(st.creds, now);
      var a := Answered(st, silently, now, net);
      !a.prompted <==>
        || (tokens != [] && now < tokens[0].notAfter && a.result == Returned(View(tokens[0], now)))
        || (silently && tokens == [] && a.result == Returned(None))
        || (silently && tokens != [] && now >= tokens[0].notAfter
            && Refreshed(st.creds, tokens[0], now, net.refresh).pair.None? && a.result == Returned(None))
  {
  }

  /** A successful refresh still ends in the device flow, even on a silent call. */
  lemma RefreshedStillPrompts(st: HState, silently: bool, now: int, net: Exchange)
    requires Active(st.creds, now) != [] && now >= Active(st.creds, now)[0].notAfter
    requires Refreshed(st.creds, Active(st.creds, now)[0], now, net.refresh).pair.Some?
    ensures Answered(st, silently, now, net).prompted
  {
  }

  /**
   * When a cached view is returned it is usable, it belongs to the valid pair
   * with the latest primary expiry, nothing changes, and no reply is consulted.
   */
  lemma CachedAnswer(st: HState, silently: bool, now: int, net: Exchange, net2: Exchange)
    requires !Answered(st, silently, now, net).prompted
    requires Answered(st, silently, now, net).result.Returned?
    requires Answered(st, silently, now, net).result.value.Some?
    ensures var a := Answered(st, silently, now, net);
      && Usable(a.result.value.value, now)
      && (forall p :: p in st.creds && IsValid(p, now) ==> a.result.value.value.notAfter >= p.notAfter)
      && a.state == st && a.clock == now
      && Answered(st, silently, now, net2) == a
  {
    var tokens := Active(st.creds, now);
    forall p | p in st.creds && IsValid(p, now)
      ensures tokens[0].notAfter >= p.notAfter
    {
      ActiveFirstIsLatest(st.creds, now, p);
    }
  }

  /** A silent call with no valid pair answers nothing, changes nothing and asks nothing. */
  lemma SilentWithoutPairs(st: HState, now: int, net: Exchange)
    requires forall p :: p in st.creds ==> !IsValid(p, now)
    ensures Answered(st, true, now, net) == Answer(Returned(None), st, now, false)
  {
    if Active(st.creds, now) != [] {
      assert Active(st.creds, now)[0] in Active(st.creds, now);
    }
  }

  /** The device flow leaves every pending grant but the one it obtained and redeemed. */
  lemma DeviceFlowPending(st: HState, now: int, net: Exchange)
    ensures DeviceFlow(st, now, net).state.pending == st.pending - {net.device.deviceCode}
  {
    var g := NewDeviceToken(net.device, now);
    var s1 := st.(pending := st.pending[g.deviceCode := g]);
    assert s1.pending - {g.deviceCode} == st.pending - {g.deviceCode};
  }

  /** After the device flow, the code it obtained is no longer pending. */
  lemma PromptConsumesCode(st: HState, silently: bool, now: int, net: Exchange)
    requires Answered(st, silently, now, net).prompted
    ensures var a := Answered(st, silently, now, net);
      a.state.pending == st.pending - {net.device.deviceCode}
  {
    var tokens := Active(st.creds, now);
    if |tokens| > 0 {
      DeviceFlowPending(st.(creds := Refreshed(st.creds, tokens[0], now, net.refresh).creds), now, net);
    } else {
      DeviceFlowPending(st, now, net);
    }
  }

  // ---------------------------------------------------------------------------
  // Loading and saving the stored credentials
  // ---------------------------------------------------------------------------

  /** The parsed credentials file: `client_id` and the `tokens` list (None: absent, null or empty text). */
  datatype StoredFile = StoredFile(clientId: Option<string>, tokens: Option<seq<TokenRecord>>)

  /** The pairs built from `recs` at `now` that are valid, in file order. */
  function KeptValid(recs: seq<TokenRecord>, now: int): (r: seq<Pair>)
    ensures forall p :: p in r ==> IsValid(p, now)
    ensures |r| <= |recs|
  {
    if recs == [] then []
    else
      var p := NewPair(recs[|recs| - 1], now);
      KeptValid(recs[..|recs| - 1], now) + (if IsValid(p, now) then [p] else [])
  }

  /**
   * `load_credentials` on the file's content (None: no file). A missing or empty
   * stored client id fails the assertion; a foreign one, or no tokens, leaves the
   * credentials as they are; otherwise they become the valid stored pairs.
   */
  function Loaded(creds: seq<Pair>, clientId: string, file: Option<StoredFile>, now: int): Outcome<seq<Pair>> {
    if file.None? then Returned(creds)
    else if file.value.clientId.None? || file.value.clientId.value == "" then Raised(AssertionError)
    else if file.value.clientId.value != clientId then Returned(creds)
    else if file.value.tokens.None? || file.value.tokens.value == [] then Returned(creds)
    else Returned(KeptValid(file.value.tokens.value, now))
  }

  /** The stored form of a list of pairs. */
  function Dicts(s: seq<Pair>): seq<TokenRecord> {
    seq(|s|, i requires 0 <= i < |s| => AsDict(s[i]))
  }

  /** One step of loading: the last record's pair is kept when it is valid. */
  lemma KeptValidLast(recs: seq<TokenRecord>, now: int)
    requires recs != []
    ensures var p := NewPair(recs[|recs| - 1], now);
      KeptValid(recs, now) == KeptValid(recs[..|recs| - 1], now) + (if IsValid(p, now) then [p] else [])
  {
  }

  /** Every stored record whose pair is valid has that pair kept. */
  lemma {:induction false} KeptValidKeeps(recs: seq<TokenRecord>, now: int, i: int)
    requires 0 <= i < |recs| && IsValid(NewPair(recs[i], now), now)
    ensures NewPair(recs[i], now) in KeptValid(recs, now)
  {
    var n := |recs| - 1;
    var init := recs[..n];
    KeptValidLast(recs, now);
    if i < n {
      assert init[i] == recs[i];
      KeptValidKeeps(init, now, i);
    }
  }

  /** Every kept pair is the valid pair of some stored record. */
  lemma {:induction false} KeptValidFrom(recs: seq<TokenRecord>, now: int, p: Pair)
    requires p in KeptValid(recs, now)
    ensures exists i :: 0 <= i < |recs| && p == NewPair(recs[i], now) && IsValid(p, now)
  {
    var n := |recs| - 1;
    var init := recs[..n];
    KeptValidLast(recs, now);
    if p in KeptValid(init, now) {
      KeptValidFrom(init, now, p);
      var j :| 0 <= j < n && p == NewPair(init[j], now) && IsValid(p, now);
      assert init[j] == recs[j];
    } else {
      assert p == NewPair(recs[n], now) && IsValid(p, now);
    }
  }

  /** Loading keeps file order: the pairs kept from a concatenation are those kept from each part. */
  lemma {:induction false} KeptValidAppend(a: seq<TokenRecord>, b: seq<TokenRecord>, now: int)
    ensures KeptValid(a + b, now) == KeptValid(a, now) + KeptValid(b, now)
    decreases |b|
  {
    if b == [] {
      assert a + b == a;
    } else {
      var init := b[..|b| - 1];
      var ab := a + b;
      assert ab[..|ab| - 1] == a + init && ab[|ab| - 1] == b[|b| - 1];
      KeptValidLast(ab, now);
      KeptValidLast(b, now);
      KeptValidAppend(a, init, now);
      var last := NewPair(b[|b| - 1], now);
      SeqAssoc(KeptValid(a, now), KeptValid(init, now), if IsValid(last, now) then [last] else []);
    }
  }

  lemma SeqAssoc<T>(x: seq<T>, y: seq<T>, z: seq<T>)
    ensures x + (y + z) == (x + y) + z
  {
  }

  /** The payload `save_credentials` writes: the client id and the active pairs. */
  function Saved(clientId: string, creds: seq<Pair>, now: int): StoredFile {
    StoredFile(Some(clientId), Some(Dicts(Active(creds, now))))
  }

  lemma {:induction false} KeptValidOfDicts(s: seq<Pair>, now: int)
    requires forall p :: p in s ==> IsValid(p, now)
    ensures KeptValid(Dicts(s), now) == s
  {
    if s != [] {
      var init := s[..|s| - 1];
      assert Dicts(s)[..|s| - 1] == Dicts(init);
      KeptValidOfDicts(init, now);
      assert NewPair(AsDict(s[|s| - 1]), now) == s[|s| - 1];
      assert s == init + [s[|s| - 1]];
    }
  }

  /**
   * Loading what was just saved, for the same client at the same clock reading,
   * gives the active pairs, or leaves the credentials alone when there were none.
   */
  lemma SaveThenLoad(clientId: string, creds: seq<Pair>, others: seq<Pair>, now: int)
    requires clientId != ""
    ensures var a := Active(creds, now);
      Loaded(others, clientId, Some(Saved(clientId, creds, now)), now) == Returned(if a == [] then others else a)
  {
    LoadStoredValid(others, clientId, Active(creds, now), now);
  }

  /** Loading the stored forms of valid pairs for the same client gives them back, unless there are none. */
  lemma LoadStoredValid(others: seq<Pair>, clientId: string, a: seq<Pair>, now: int)
    requires clientId != ""
    requires forall p :: p in a ==> IsValid(p, now)
    ensures Loaded(others, clientId, Some(StoredFile(Some(clientId), Some(Dicts(a)))), now)
            == Returned(if a == [] then others else a)
  {
    assert |Dicts(a)| == |a|;
    if a != [] {
      KeptValidOfDicts(a, now);
    }
  }

  /** A stored set for another client is ignored as a whole. */
  lemma ForeignClientIgnored(creds: seq<Pair>, clientId: string, file: StoredFile, now: int)
    requires file.clientId.Some? && file.clientId.value != "" && file.clientId.value != clientId
    ensures Loaded(creds, clientId, Some(file), now) == Returned(creds)
  {
  }

  // ---------------------------------------------------------------------------
  // The handler object
  // ---------------------------------------------------------------------------

  /** `DeviceCodeHandler`. */
  class DeviceCodeHandler {
    const clientId: string
    var credentials: seq<Pair>
    var deviceTokens: map<string, DeviceToken>

    function State(): HState
      reads this
    {
      HState(credentials, deviceTokens)
    }

    /** Builds a handler; `Create` calls it once the client id has been checked. */
    constructor (clientId: string)
      requires clientId != ""
      ensures this.clientId == clientId
      ensures credentials == [] && deviceTokens == map[]
    {
      this.clientId := clientId;
      credentials := [];
      deviceTokens := map[];
    }

    /** `DeviceCodeHandler.__init__`: an empty client id raises KeyError. */
    static method Create(clientId: string) returns (r: Outcome<DeviceCodeHandler>)
      ensures r.Raised? <==> clientId == ""
      ensures r.Raised? ==> r.error == KeyError("client_id")
      ensures r.Returned? ==> fresh(r.value) && r.value.clientId == clientId
                              && r.value.credentials == [] && r.value.deviceTokens == map[]
    {
      if clientId == "" {
        return Raised(KeyError("client_id"));
      }
      var h := new DeviceCodeHandler(clientId);
      return Returned(h);
    }

    /** `__get_refresh_token`: `reply` is what the token endpoint answers, if asked. */
    method Refresh(p: Pair, now: int, reply: Reply) returns (r: Option<Pair>)
      modifies this`credentials
      ensures RefreshResult(r, credentials) == Refreshed(old(credentials), p, now, reply)
    {
      if !IsValid(p, now) {
        return None;
      }
      if CarriesToken(reply) {
        var token := NewPair(reply.record, now);
        if IsValid(token, now) {
          credentials := Active(credentials, now) + [token];
          return Some(token);
        }
      }
      return None;
    }

    /** `__get_device_code`: records the grant under its device code. */
    method GetDeviceCode(now: int, reply: DeviceReply) returns (deviceCode: string, userCode: string, uri: string)
      modifies this`deviceTokens
      ensures deviceTokens == old(deviceTokens)[deviceCode := NewDeviceToken(reply, now)]
      ensures deviceCode == reply.deviceCode && userCode == reply.userCode && uri == reply.verificationUri
    {
      var token := NewDeviceToken(reply, now);
      deviceTokens := deviceTokens[token.deviceCode := token];
      return token.deviceCode, token.userCode, token.verificationUri;
    }

    /** `__get_access_token_for_device_code`: `poll(k)` is the reply to the k-th poll. */
    method AccessTokenForDeviceCode(deviceCode: string, now: int, poll: nat -> Reply)
      returns (r: Outcome<Option<AccessToken>>, later: int)
      modifies this
      ensures Step(r, State(), later) == Redeemed(old(State()), deviceCode, now, poll)
    {
      if deviceCode !in deviceTokens {
        return Returned(None), now;
      }
      var grant := deviceTokens[deviceCode];
      deviceTokens := deviceTokens - {deviceCode};
      var q := PollGrant(grant, now, poll);
      match q.end
      case Granted(token) =>
        credentials := Active(credentials, q.clock) + [token];
        return Returned(View(token, q.clock)), q.clock;
      case Stopped =>
        return Returned(None), q.clock;
      case MissingError =>
        return Raised(KeyError("error")), q.clock;
    }

    /** `get_access_token(silently)`. */
    method GetAccessToken(silently: bool, now: int, net: Exchange) returns (r: Outcome<Option<AccessToken>>, later: int)
      modifies this
      ensures var a := Answered(old(State()), silently, now, net);
        r == a.result && State() == a.state && later == a.clock
    {
      var tokens := Active(credentials, now);
      if |tokens| > 0 {
        var token := tokens[0];
        assert token in tokens;
        var access := View(token, now);
        if !Usable(access.value, now) {
          var refreshed := Refresh(token, now, net.refresh);
          if refreshed.None? && silently {
            return Returned(None), now;
          }
        } else {
          return Returned(View(token, now)), now;
        }
      } else if silently {
        return Returned(None), now;
      }
      var deviceCode, userCode, uri := GetDeviceCode(now, net.device);
      r, later := AccessTokenForDeviceCode(deviceCode, now, net.poll);
    }

    /** `load_credentials` on the file's parsed content (None when there is no file). */
    method LoadCredentials(file: Option<StoredFile>, now: int) returns (r: Outcome<()>)
      modifies this`credentials
      ensures var l := Loaded(old(credentials), clientId, file, now);
        && (l.Raised? ==> r == Raised(l.error) && credentials == old(credentials))
        && (l.Returned? ==> r == Returned(()) && credentials == l.value)
    {
      if file.None? {
        return Returned(());
      }
      var data := file.value;
      if data.clientId.None? || data.clientId.value == "" {
        return Raised(AssertionError);
      }
      if data.clientId.value != clientId {
        return Returned(());
      }
      if data.tokens.None? || data.tokens.value == [] {
        return Returned(());
      }
      var records := data.tokens.value;
      credentials := [];
      var i := 0;
      while i < |records|
        invariant 0 <= i <= |records|
        invariant credentials == KeptValid(records[..i], now)
      {
        var token := NewPair(records[i], now);
        if IsValid(token, now) {
          credentials := credentials + [token];
        } else {
          // The refresh returns at once for an expired pair; the reply is never consulted.
          var _ := Refresh(token, now, Empty);
        }
        assert records[..i + 1][..i] == records[..i];
        i := i + 1;
      }
      assert records[..i] == records;
      return Returned(());
    }

    /** `save_credentials`: the payload written to the file. */
    method SaveCredentials(now: int) returns (payload: StoredFile)
      ensures payload == Saved(clientId, credentials, now)
    {
      var active := Active(credentials, now);
      payload := StoredFile(Some(clientId), Some(Dicts(active)));
    }
  }
}

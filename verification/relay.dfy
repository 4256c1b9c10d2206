/**
 * The relay loop of proxy.py: one turn of its `while True` body (token
 * acquisition, the save decision, the queue-wait timeout derived from the
 * token's remaining life, then one dequeue-and-send or a timeout), the final
 * save on shutdown, and `process_queue`.
 *
 * The queue is a sequence the listener appends to between turns; the clock is
 * an integer that the token calls and the timed-out wait advance.
 */
module Relay {
  import opened Base
  import opened Tokens
  import opened Handler
  import opened Mail

  /** Seconds kept back from the wait when there is room for it. */
  const SafetyMargin := 30
  /** The margin applies only to a remaining life above this many seconds. */
  const MarginFloor := 60

  /**
   * The queue-wait timeout for a token with `remaining` whole seconds of life
   * (`days * 86400 + seconds`, microseconds dropped).
   */
  function WaitSeconds(remaining: int): (w: int)
    ensures w <= remaining && remaining - w <= SafetyMargin
    ensures w < 0 <==> remaining < 0
    ensures remaining > MarginFloor ==> w > SafetyMargin && remaining - w == SafetyMargin
    ensures remaining <= MarginFloor ==> w == remaining
  {
    if remaining > MarginFloor then remaining - SafetyMargin else remaining
  }

  /** The documented thresholds, including the jump at exactly 60 seconds. */
  lemma WaitExamples()
    ensures WaitSeconds(100) == 70 && WaitSeconds(61) == 31
    ensures WaitSeconds(60) == 60 && WaitSeconds(40) == 40
  {
  }

  /** Everything one turn reads or changes: the handler, the queue, the clock and what was saved or posted. */
  datatype RState = RState(handler: HState, queue: seq<Message>, clock: int, saved: seq<StoredFile>, posted: seq<Request>)

  /** The replies and the mail API's verdict one turn meets, for each call it may make. */
  datatype TurnInput = TurnInput(silent: Exchange, interactive: Exchange, send: Exchange, accepted: bool)

  /**
   * How a turn ends: no token (the loop restarts), one message delivered, the
   * wait timed out, or an exception left the loop.
   */
  datatype TurnEnd = NoToken | Delivered | TimedOut | Halted(error: Exception)

  /** `interactive` records whether the turn asked for a token interactively. */
  datatype TurnResult = TurnResult(end: TurnEnd, state: RState, interactive: bool)

  /** With a token in hand: wait on the queue, then send one message or time out. */
  function Drain(s: RState, token: AccessToken, input: TurnInput, interactive: bool): TurnResult {
    var seconds := WaitSeconds(token.notAfter - s.clock);
    if seconds < 0 then TurnResult(Halted(ValueError), s, interactive)
    else if s.queue == [] then TurnResult(TimedOut, s.(clock := s.clock + seconds), interactive)
    else
      var d := Sent(s.handler, s.queue[0], s.clock, input.send, input.accepted);
      var s' := s.(handler := d.state, queue := s.queue[1..], clock := d.clock);
      if d.result.Raised? then TurnResult(Halted(d.result.error), s', interactive)
      else TurnResult(Delivered, s'.(posted := s.posted + [d.result.value]), interactive)
  }

  /** One turn of the loop in `main`. */
  function Turn(clientId: string, s: RState, input: TurnInput): TurnResult {
    var a := Answered(s.handler, true, s.clock, input.silent);
    var s1 := s.(handler := a.state, clock := a.clock);
    if a.result.Raised? then TurnResult(Halted(a.result.error), s1, false)
    else if a.result.value.Some? then Drain(s1, a.result.value.value, input, false)
    else
      var b := Answered(a.state, false, a.clock, input.interactive);
      var s2 := s.(handler := b.state, clock := b.clock);
      if b.result.Raised? then TurnResult(Halted(b.result.error), s2, true)
      else if b.result.value.None? then TurnResult(NoToken, s2, true)
      else Drain(s2.(saved := s.saved + [Saved(clientId, b.state.creds, b.clock)]), b.result.value.value, input, true)
  }

  /** A turn asks interactively exactly when the silent request returned no token. */
  lemma InteractiveOnlyAfterSilentMiss(clientId: string, s: RState, input: TurnInput)
    ensures Turn(clientId, s, input).interactive
            <==> Answered(s.handler, true, s.clock, input.silent).result == Returned(None)
  {
    var a := Answered(s.handler, true, s.clock, input.silent);
    if a.result.Returned? && a.result.value.Some? {
      DrainKeepsSaved(s.(handler := a.state, clock := a.clock), a.result.value.value, input, false);
    } else if a.result.Returned? {
      var b := Answered(a.state, false, a.clock, input.interactive);
      var s2 := s.(handler := b.state, clock := b.clock);
      if b.result.Returned? && b.result.value.Some? {
        DrainKeepsSaved(s2.(saved := s.saved + [Saved(clientId, b.state.creds, b.clock)]),
                        b.result.value.value, input, true);
      }
    }
  }

  /**
   * Credentials are saved in a turn exactly when the interactive request
   * returned a token, and then what is saved is the handler's active pairs
   * right after that request.
   */
  lemma SavesOnlyAfterInteractiveSuccess(clientId: string, s: RState, input: TurnInput)
    ensures var r := Turn(clientId, s, input);
      var a := Answered(s.handler, true, s.clock, input.silent);
      var b := Answered(a.state, false, a.clock, input.interactive);
      var succeeded := r.interactive && b.result.Returned? && b.result.value.Some?;
      && (succeeded ==> r.state.saved == s.saved + [Saved(clientId, b.state.creds, b.clock)])
      && (!succeeded ==> r.state.saved == s.saved)
  {
    var a := Answered(s.handler, true, s.clock, input.silent);
    var s1 := s.(handler := a.state, clock := a.clock);
    if a.result.Raised? || a.result.value.Some? {
      if a.result.Returned? {
        DrainKeepsSaved(s1, a.result.value.value, input, false);
      }
    } else {
      var b := Answered(a.state, false, a.clock, input.interactive);
      var s2 := s.(handler := b.state, clock := b.clock);
      if b.result.Returned? && b.result.value.Some? {
        DrainKeepsSaved(s2.(saved := s.saved + [Saved(clientId, b.state.creds, b.clock)]),
                        b.result.value.value, input, true);
      }
    }
  }

  /** When neither request yields a token, the turn restarts without touching the queue. */
  lemma NoTokenRestarts(clientId: string, s: RState, input: TurnInput)
    requires Turn(clientId, s, input).end == NoToken
    ensures var r := Turn(clientId, s, input);
      r.state.queue == s.queue && r.state.posted == s.posted && r.state.saved == s.saved && r.interactive
  {
    var a := Answered(s.handler, true, s.clock, input.silent);
    if a.result.Returned? && a.result.value.Some? {
      DrainEnds(s.(handler := a.state, clock := a.clock), a.result.value.value, input, false);
    } else if a.result.Returned? {
      var b := Answered(a.state, false, a.clock, input.interactive);
      if b.result.Returned? && b.result.value.Some? {
        var s2 := s.(handler := b.state, clock := b.clock);
        DrainEnds(s2.(saved := s.saved + [Saved(clientId, b.state.creds, b.clock)]),
                  b.result.value.value, input, true);
      }
    }
  }

  /** Waiting and sending never record a save. */
  lemma DrainKeepsSaved(s: RState, token: AccessToken, input: TurnInput, interactive: bool)
    ensures Drain(s, token, input, interactive).state.saved == s.saved
    ensures Drain(s, token, input, interactive).interactive == interactive
  {
  }

  /** Waiting and sending never end with `NoToken`. */
  lemma DrainEnds(s: RState, token: AccessToken, input: TurnInput, interactive: bool)
    ensures Drain(s, token, input, interactive).end != NoToken
  {
  }

  /**
   * Waiting and sending remove at most the first message: either nothing was
   * taken and nothing posted, or the head is gone and, on delivery only, one
   * request for the head's recipients was appended.
   */
  predicate AtMostHeadSent(s: RState, r: TurnResult) {
    || (r.state.queue == s.queue && r.state.posted == s.posted && r.end != Delivered)
    || (s.queue != [] && r.state.queue == s.queue[1..]
        && (r.end == Delivered <==> r.state.posted != s.posted)
        && (r.end == Delivered ==>
              |r.state.posted| == |s.posted| + 1 && r.state.posted[..|s.posted|] == s.posted
              && r.state.posted[|s.posted|].recipients == RecipientsOf(s.queue[0])))
  }

  lemma DrainSendsAtMostHead(s: RState, token: AccessToken, input: TurnInput, interactive: bool)
    ensures AtMostHeadSent(s, Drain(s, token, input, interactive))
  {
    var r := Drain(s, token, input, interactive);
    if r.end == Delivered {
      assert (s.posted + [r.state.posted[|s.posted|]])[..|s.posted|] == s.posted;
    }
  }

  /** A turn hands at most the first queued message to the sender, and posts at most one request. */
  lemma OneMessagePerTurn(clientId: string, s: RState, input: TurnInput)
    ensures AtMostHeadSent(s, Turn(clientId, s, input))
  {
    var a := Answered(s.handler, true, s.clock, input.silent);
    var s1 := s.(handler := a.state, clock := a.clock);
    if a.result.Returned? && a.result.value.Some? {
      DrainSendsAtMostHead(s1, a.result.value.value, input, false);
    } else if a.result.Returned? {
      var b := Answered(a.state, false, a.clock, input.interactive);
      var s2 := s.(handler := b.state, clock := b.clock);
      if b.result.Returned? && b.result.value.Some? {
        DrainSendsAtMostHead(s2.(saved := s.saved + [Saved(clientId, b.state.creds, b.clock)]),
                             b.result.value.value, input, true);
      }
    }
  }

  /**
   * A timeout happens only on an empty queue, and the clock then stands 30
   * seconds before the token's expiry if it had more than 60 seconds of life,
   * and at its expiry otherwise.
   */
  lemma TimeoutLeavesMargin(s: RState, token: AccessToken, input: TurnInput, interactive: bool)
    requires Drain(s, token, input, interactive).end == TimedOut
    ensures var r := Drain(s, token, input, interactive);
      && s.queue == [] && r.state.queue == [] && r.state.posted == s.posted
      && (token.notAfter - s.clock > 60 ==> token.notAfter - r.state.clock == 30)
      && (token.notAfter - s.clock <= 60 ==> r.state.clock == token.notAfter)
  {
  }

  /**
   * Scenario: empty queue and a cached pair with 45 seconds of primary life
   * left. The turn waits 45 seconds and times out, changing nothing else.
   */
  lemma CachedTokenEmptyQueue(clientId: string, s: RState, p: Pair, input: TurnInput)
    requires s.handler.creds == [p] && s.queue == []
    requires p.notAfter == s.clock + 45 && IsValid(p, s.clock)
    ensures Turn(clientId, s, input) == TurnResult(TimedOut, s.(clock := s.clock + 45), false)
  {
    var token := AccessToken(p.accessToken, p.tokenType, p.scope, p.notAfter);
    SinglePairAnswers(s.handler, p, s.clock, input.silent);
    assert Turn(clientId, s, input) == Drain(s, token, input, false);
  }

  /** A handler holding one valid, unexpired pair answers a silent call with it at once. */
  lemma SinglePairAnswers(h: HState, p: Pair, now: int, net: Exchange)
    requires h.creds == [p] && IsValid(p, now) && now < p.notAfter
    ensures Answered(h, true, now, net)
            == Answer(Returned(Some(AccessToken(p.accessToken, p.tokenType, p.scope, p.notAfter))), h, now, false)
  {
    assert Active([p], now) == [p] by {
      ValidOnlyOfValid([p], now);
      SortOfSorted([p]);
    }
  }

  /**
   * Scenario: one queued message and a cached pair with 100 seconds of primary
   * life left. The message is sent with that pair's token, the clock stays put
   * and the queue is emptied.
   */
  lemma CachedTokenDelivers(clientId: string, s: RState, p: Pair, m: Message, input: TurnInput)
    requires s.handler.creds == [p] && s.queue == [m] && input.accepted
    requires p.notAfter == s.clock + 100 && IsValid(p, s.clock)
    ensures var token := AccessToken(p.accessToken, p.tokenType, p.scope, p.notAfter);
      Turn(clientId, s, input)
      == TurnResult(Delivered,
                    s.(queue := [], posted := s.posted + [Request(Authorization(token), RecipientsOf(m))]),
                    false)
  {
    var token := AccessToken(p.accessToken, p.tokenType, p.scope, p.notAfter);
    SinglePairAnswers(s.handler, p, s.clock, input.silent);
    assert Turn(clientId, s, input) == Drain(s, token, input, false);
    SinglePairAnswers(s.handler, p, s.clock, input.send);
    assert Sent(s.handler, m, s.clock, input.send, true)
        == SendResult(Returned(Request(Authorization(token), RecipientsOf(m))), s.handler, s.clock);
    assert WaitSeconds(token.notAfter - s.clock) == 70;
  }

  /** The relay's state in `main`. */
  class RelayLoop {
    const handler: DeviceCodeHandler
    const mailer: MailSender
    var queue: seq<Message>
    var clock: int
    var saved: seq<StoredFile>
    var posted: seq<Request>

    function State(): RState
      reads this, handler
    {
      RState(handler.State(), queue, clock, saved, posted)
    }

    /** `mail_queue = Queue()` with the handler and the sender built in `main`. */
    constructor (handler: DeviceCodeHandler, mailer: MailSender, now: int)
      requires mailer.handler == handler
      ensures this.handler == handler && this.mailer == mailer
      ensures queue == [] && clock == now && saved == [] && posted == []
    {
      this.handler := handler;
      this.mailer := mailer;
      queue := [];
      clock := now;
      saved := [];
      posted := [];
    }

    /** The listener's `queue.put(message)`. */
    method Enqueue(m: Message)
      modifies this`queue
      ensures queue == old(queue) + [m]
    {
      queue := queue + [m];
    }

    /** One turn of the `while True` body; a `Halted` end means the exception leaves `main`. */
    method Step(input: TurnInput) returns (end: TurnEnd)
      requires mailer.handler == handler
      modifies this, handler
      ensures var t := Turn(handler.clientId, old(State()), input);
        end == t.end && State() == t.state
    {
      ghost var s := State();
      var token, t := handler.GetAccessToken(true, clock, input.silent);
      ghost var a := Answered(s.handler, true, s.clock, input.silent);
      assert token == a.result && handler.State() == a.state && t == a.clock;
      if token.Raised? {
        clock := t;
        return Halted(token.error);
      }
      var interactive := false;
      if token.value.None? {
        // Fall back on getting a new access token interactively.
        interactive := true;
        token, t := handler.GetAccessToken(false, t, input.interactive);
        ghost var b := Answered(a.state, false, a.clock, input.interactive);
        assert token == b.result && handler.State() == b.state && t == b.clock;
        if token.Raised? {
          clock := t;
          return Halted(token.error);
        }
        if token.value.None? {
          clock := t;
          return NoToken;
        }
        var payload := handler.SaveCredentials(t);
        saved := saved + [payload];
      }
      clock := t;
      end := DrainQueue(token.value.value, input, interactive);
    }

    /** The rest of the turn once a token is in hand: wait on the queue, then send or time out. */
    method DrainQueue(access: AccessToken, input: TurnInput, interactive: bool) returns (end: TurnEnd)
      requires mailer.handler == handler
      modifies this, handler
      ensures TurnResult(end, State(), interactive) == Drain(old(State()), access, input, interactive)
    {
      var seconds := WaitSeconds(access.notAfter - clock);
      if seconds < 0 {
        return Halted(ValueError);
      }
      if queue == [] {
        clock := clock + seconds;
        return TimedOut;
      }
      var message := queue[0];
      queue := queue[1..];
      var result;
      result, clock := mailer.Send(message, clock, input.send, input.accepted);
      if result.Raised? {
        return Halted(result.error);
      }
      posted := posted + [result.value];
      return Delivered;
    }

    /** The save after the loop, reached when the loop is interrupted. */
    method Shutdown()
      modifies this`saved
      ensures saved == old(saved) + [Saved(handler.clientId, handler.credentials, clock)]
    {
      var payload := handler.SaveCredentials(clock);
      saved := saved + [payload];
    }

    /** `process_queue`: takes messages from the front until the queue is empty. */
    method ProcessQueue() returns (printed: seq<Message>)
      modifies this`queue
      ensures printed == old(queue) && queue == []
    {
      printed := [];
      while queue != []
        invariant printed + queue == old(queue)
        decreases |queue|
      {
        var message := queue[0];
        queue := queue[1..];
        printed := printed + [message];
      }
    }
  }
}

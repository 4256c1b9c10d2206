/**
 * The mail sender of mail.py: the token gate in front of a send, the
 * Authorization header, and the recipient list built from the `To` or
 * `X-RcptTo` header. The MIME body and the HTTP call itself are not part of
 * this model; whether the mail API accepts the request is a parameter.
 */
module Mail {
  import opened Base
  import opened Tokens
  import opened Handler

  /** The two headers of an inbound message that the sender reads (None: header absent). */
  datatype Message = Message(to: Option<string>, rcptTo: Option<string>)

  /** One `{'emailAddress': {...}}` entry; `name` is present only for `Name <addr>` pieces. */
  datatype Recipient = Recipient(name: Option<string>, address: string)

  /** What is posted to the mail API: the Authorization header and the recipients. */
  datatype Request = Request(authorization: string, recipients: seq<Recipient>)

  // ---------------------------------------------------------------------------
  // Text helpers: Python's str.strip, str.split(',') and removal of CR and LF
  // ---------------------------------------------------------------------------

  /** Python's `str.isspace` for one character. */
  predicate IsSpace(c: char) {
    || c == ' ' || '\t' <= c <= '\r' || '\U{1C}' <= c <= '\U{1F}'
    || c == '\U{85}' || c == '\U{A0}' || c == '\U{1680}' || '\U{2000}' <= c <= '\U{200A}'
    || c == '\U{2028}' || c == '\U{2029}' || c == '\U{202F}' || c == '\U{205F}' || c == '\U{3000}'
  }

  function TrimStart(s: string): (r: string)
    ensures |r| <= |s| && r == s[|s| - |r|..]
    ensures r == [] || !IsSpace(r[0])
    ensures forall i :: 0 <= i < |s| - |r| ==> IsSpace(s[i])
  {
    if s != [] && IsSpace(s[0]) then TrimStart(s[1..]) else s
  }

  function TrimEnd(s: string): (r: string)
    ensures |r| <= |s| && r == s[..|r|]
    ensures r == [] || !IsSpace(r[|r| - 1])
    ensures forall i :: |r| <= i < |s| ==> IsSpace(s[i])
  {
    if s != [] && IsSpace(s[|s| - 1]) then TrimEnd(s[..|s| - 1]) else s
  }

  /** `str.strip()`: the slice of `s` between its leading and trailing white space. */
  function Strip(s: string): (r: string)
    ensures r == [] || (!IsSpace(r[0]) && !IsSpace(r[|r| - 1]))
    ensures forall c :: c in r ==> c in s
  {
    var t := TrimStart(s);
    var r := TrimEnd(t);
    assert r == [] || r[0] == t[0];
    SliceChars(t, 0, |r|);
    SliceChars(s, |s| - |t|, |s|);
    r
  }

  /**
   * Stripping cuts only leading and trailing white space: the result is a
   * slice of the input, and everything outside the slice is white space.
   */
  lemma StripIsSlice(s: string)
    ensures exists i, j :: 0 <= i <= j <= |s| && Strip(s) == s[i..j]
              && (forall k :: 0 <= k < i ==> IsSpace(s[k])) && (forall k :: j <= k < |s| ==> IsSpace(s[k]))
  {
    TrimmedSlice(s, TrimStart(s), TrimEnd(TrimStart(s)));
  }

  /**
   * Trimming both ends leaves a slice of `s` with only white space cut from
   * either side, and with no white space left at either end.
   */
  lemma TrimmedSlice(s: string, t: string, r: string)
    requires |t| <= |s| && t == s[|s| - |t|..] && forall k :: 0 <= k < |s| - |t| ==> IsSpace(s[k])
    requires |r| <= |t| && r == t[..|r|] && forall k :: |r| <= k < |t| ==> IsSpace(t[k])
    requires t == [] || !IsSpace(t[0])
    requires r == [] || !IsSpace(r[|r| - 1])
    ensures r == [] || (!IsSpace(r[0]) && !IsSpace(r[|r| - 1]))
    ensures forall c :: c in r ==> c in s
    ensures exists i, j :: 0 <= i <= j <= |s| && r == s[i..j]
              && (forall k :: 0 <= k < i ==> IsSpace(s[k])) && (forall k :: j <= k < |s| ==> IsSpace(s[k]))
  {
    var i := |s| - |t|;
    var j := i + |r|;
    assert r == [] || r[0] == t[0];
    SliceChars(t, 0, |r|);
    SliceChars(s, i, |s|);
    assert r == s[i..j];
    forall k | j <= k < |s| ensures IsSpace(s[k]) {
      assert s[k] == t[k - i];
    }
  }

  lemma SliceChars(s: string, i: int, j: int)
    requires 0 <= i <= j <= |s|
    ensures forall c :: c in s[i..j] ==> c in s
  {
    forall c | c in s[i..j] ensures c in s {
      var k :| i <= k < j && s[k] == c;
    }
  }

  /** Text that already has no white space at either end is left as it is. */
  lemma StripOfStripped(s: string)
    requires s == [] || (!IsSpace(s[0]) && !IsSpace(s[|s| - 1]))
    ensures Strip(s) == s
  {
  }

  lemma StripIdempotent(s: string)
    ensures Strip(Strip(s)) == Strip(s)
  {
    StripOfStripped(Strip(s));
  }

  /** A string that starts with a non-space character keeps a non-empty strip. */
  lemma StripNonEmpty(s: string)
    requires s != [] && !IsSpace(s[0])
    ensures Strip(s) != []
  {
    assert TrimStart(s) == s;
  }

  /** `s.split(',')`: the pieces between commas, empty ones included. */
  function Split(s: string): (parts: seq<string>)
    ensures |parts| >= 1
    ensures forall i :: 0 <= i < |parts| ==> ',' !in parts[i]
  {
    if s == [] then [""]
    else if s[0] == ',' then [""] + Split(s[1..])
    else
      var rest := Split(s[1..]);
      [[s[0]] + rest[0]] + rest[1..]
  }

  /** `','.join(parts)`. */
  function Join(parts: seq<string>): string
    requires |parts| >= 1
  {
    if |parts| == 1 then parts[0] else parts[0] + "," + Join(parts[1..])
  }

  /** Joining the pieces with commas gives the header back. */
  lemma {:induction false} JoinSplit(s: string)
    ensures Join(Split(s)) == s
  {
    if s != [] {
      JoinSplit(s[1..]);
      if s[0] != ',' {
        var rest := Split(s[1..]);
        if |rest| == 1 {
          assert Join(Split(s)) == [s[0]] + rest[0];
        } else {
          assert Split(s)[1..] == rest[1..];
          assert Join(Split(s)) == ([s[0]] + rest[0]) + "," + Join(rest[1..]);
        }
      }
    }
  }

  /** Splitting comma-free pieces joined with commas gives the pieces back. */
  lemma {:induction false} SplitJoin(parts: seq<string>)
    requires |parts| >= 1
    requires forall i :: 0 <= i < |parts| ==> ',' !in parts[i]
    ensures Split(Join(parts)) == parts
  {
    if |parts| == 1 {
      SplitCommaFree(parts[0], []);
    } else {
      SplitJoin(parts[1..]);
      SplitCommaFree(parts[0], parts[1..]);
    }
  }

  /** A comma-free prefix followed by `,` and more pieces splits into the prefix and those pieces. */
  lemma {:induction false} SplitCommaFree(p: string, more: seq<string>)
    requires ',' !in p
    requires |more| >= 1 ==> Split(Join(more)) == more
    ensures |more| == 0 ==> Split(p) == [p]
    ensures |more| >= 1 ==> Split(p + "," + Join(more)) == [p] + more
  {
    if p == [] {
      if |more| >= 1 {
        assert ([] + "," + Join(more))[1..] == Join(more);
      }
    } else {
      assert p[0] in p;
      SplitCommaFree(p[1..], more);
      assert [p[0]] + p[1..] == p;
      if |more| == 0 {
        assert Split(p[1..]) == [p[1..]];
      } else {
        var s := p + "," + Join(more);
        assert s[0] == p[0] && s[1..] == p[1..] + "," + Join(more);
        assert Split(s[1..]) == [p[1..]] + more;
      }
    }
  }

  /** `.replace('\n', '').replace('\r', '')`. */
  function RemoveLineBreaks(s: string): (r: string)
    ensures '\r' !in r && '\n' !in r
    ensures s != [] && s[0] != '\r' && s[0] != '\n' ==> r != [] && r[0] == s[0]
    ensures '\r' !in s && '\n' !in s ==> r == s
    ensures |r| <= |s|
  {
    if s == [] then []
    else (if s[0] == '\r' || s[0] == '\n' then [] else [s[0]]) + RemoveLineBreaks(s[1..])
  }

  /** Removal keeps order: removing from a concatenation removes from each part. */
  lemma {:induction false} RemoveLineBreaksAppend(a: string, b: string)
    ensures RemoveLineBreaks(a + b) == RemoveLineBreaks(a) + RemoveLineBreaks(b)
  {
    if a == [] {
      assert a + b == b;
    } else {
      var h := if a[0] == '\r' || a[0] == '\n' then [] else [a[0]];
      var rest := a[1..] + b;
      assert (a + b)[0] == a[0] && (a + b)[1..] == rest;
      RemoveLineBreaksHead(a + b);
      RemoveLineBreaksHead(a);
      RemoveLineBreaksAppend(a[1..], b);
      ConcatAssoc(h, RemoveLineBreaks(a[1..]), RemoveLineBreaks(b));
    }
  }

  lemma ConcatAssoc(x: string, y: string, z: string)
    ensures x + (y + z) == (x + y) + z
  {
  }

  /** Removal keeps every character other than CR and LF. */
  lemma {:induction false} RemoveLineBreaksKeeps(s: string, c: char)
    ensures c in RemoveLineBreaks(s) <==> c in s && c != '\r' && c != '\n'
  {
    if s != [] {
      RemoveLineBreaksHead(s);
      RemoveLineBreaksKeeps(s[1..], c);
      assert s == [s[0]] + s[1..];
    }
  }

  /** One step of the removal. */
  lemma RemoveLineBreaksHead(s: string)
    requires s != []
    ensures RemoveLineBreaks(s) == (if s[0] == '\r' || s[0] == '\n' then [] else [s[0]]) + RemoveLineBreaks(s[1..])
  {
  }

  // ---------------------------------------------------------------------------
  // The `Name <addr>` form: the regular expression ^([^<]+)<([^>]+)>$
  // ---------------------------------------------------------------------------

  /** Position of the first `c` in `s`, or |s| when there is none. */
  function FirstIndex(s: string, c: char): (i: nat)
    ensures i <= |s|
    ensures i < |s| ==> s[i] == c
    ensures c !in s[..i]
  {
    if s == [] || s[0] == c then 0 else 1 + FirstIndex(s[1..], c)
  }

  /** The shape the regular expression accepts, with its two groups. */
  predicate NameAddressShape(s: string, name: string, address: string) {
    && s == name + "<" + address + ">"
    && |name| >= 1 && '<' !in name
    && |address| >= 1 && '>' !in address
  }

  /**
   * `re.match(r'^([^<]+)<([^>]+)>$', s)` on text without line breaks: the first
   * group runs up to the first `<`; the second runs to the final `>`.
   */
  function MatchNameAddress(s: string): Option<(string, string)> {
    var i := FirstIndex(s, '<');
    if i == 0 || |s| < i + 3 || s[|s| - 1] != '>' || '>' in s[i + 1..|s| - 1] then None
    else Some((s[..i], s[i + 1..|s| - 1]))
  }

  /** The match function finds exactly the groups of the regular expression. */
  lemma MatchIsRegex(s: string, name: string, address: string)
    ensures MatchNameAddress(s) == Some((name, address)) <==> NameAddressShape(s, name, address)
  {
    if NameAddressShape(s, name, address) {
      assert s == name + ("<" + address + ">");
      FirstIndexAfterFree(name, "<" + address + ">", '<');
      assert s[..|name|] == name;
      assert s[|name| + 1..|s| - 1] == address;
      assert s[|s| - 1] == '>';
    }
    if MatchNameAddress(s) == Some((name, address)) {
      var i := FirstIndex(s, '<');
      assert i < |s| && s[i] == '<' && s[|s| - 1] == '>';
      assert name == s[..i] && address == s[i + 1..|s| - 1];
      assert s == s[..i] + "<" + s[i + 1..|s| - 1] + ">";
    }
  }

  lemma {:induction false} FirstIndexAfterFree(a: string, b: string, c: char)
    requires c !in a && b != [] && b[0] == c
    ensures FirstIndex(a + b, c) == |a|
  {
    if a != [] {
      assert (a + b)[1..] == a[1..] + b;
      FirstIndexAfterFree(a[1..], b, c);
    } else {
      assert a + b == b;
    }
  }

  // ---------------------------------------------------------------------------
  // `__get_recipients`
  // ---------------------------------------------------------------------------

  /** A `To` piece after stripping and removing CR and LF. */
  function Clean(piece: string): string {
    RemoveLineBreaks(Strip(piece))
  }

  /** The entry for one cleaned `To` piece. */
  function FromCleaned(addr: string): Recipient {
    match MatchNameAddress(addr)
    case Some((name, address)) => Recipient(Some(Strip(name)), Strip(address))
    case None => Recipient(None, Strip(addr))
  }

  /** `f` applied to every piece, in order: the list an appending loop over the pieces builds. */
  function MapPieces<T>(f: string -> T, pieces: seq<string>): (r: seq<T>)
    ensures |r| == |pieces|
  {
    if pieces == [] then []
    else MapPieces(f, pieces[..|pieces| - 1]) + [f(pieces[|pieces| - 1])]
  }

  /** Entry `i` is built from piece `i`. */
  lemma {:induction false} MapPiecesAt<T>(f: string -> T, pieces: seq<string>, i: int)
    requires 0 <= i < |pieces|
    ensures MapPieces(f, pieces)[i] == f(pieces[i])
  {
    var n := |pieces| - 1;
    var init := pieces[..n];
    assert MapPieces(f, pieces) == MapPieces(f, init) + [f(pieces[n])];
    if i < n {
      MapPiecesAt(f, init, i);
      assert init[i] == pieces[i];
    }
  }

  /** One more piece, one more entry at the end. */
  lemma MapPiecesSnoc<T>(f: string -> T, pieces: seq<string>, i: int)
    requires 0 <= i < |pieces|
    ensures MapPieces(f, pieces[..i + 1]) == MapPieces(f, pieces[..i]) + [f(pieces[i])]
  {
    assert pieces[..i + 1][..i] == pieces[..i];
  }

  /** The entry for one `To` piece. */
  function Entry(piece: string): Recipient {
    FromCleaned(Clean(piece))
  }

  /** The `To` branch: one entry per comma-separated piece, in order. */
  function ToRecipients(header: string): seq<Recipient> {
    MapPieces(Entry, Split(header))
  }

  /** The `To` branch has one entry per piece, and entry `i` is built from piece `i` alone. */
  lemma ToRecipientsAt(header: string, i: int)
    requires 0 <= i < |Split(header)|
    ensures |ToRecipients(header)| == |Split(header)|
    ensures ToRecipients(header)[i] == FromCleaned(Clean(Split(header)[i]))
  {
    MapPiecesAt(Entry, Split(header), i);
  }

  /** The `X-RcptTo` branch: each piece only stripped, never given a name. */
  function RcptToRecipients(header: string): seq<Recipient> {
    var parts := Split(header);
    seq(|parts|, i requires 0 <= i < |parts| => Recipient(None, Strip(parts[i])))
  }

  /** `To` when it is non-empty, else `X-RcptTo` when it is non-empty, else nothing. */
  function RecipientsOf(m: Message): seq<Recipient> {
    if m.to.Some? && m.to.value != "" then ToRecipients(m.to.value)
    else if m.rcptTo.Some? && m.rcptTo.value != "" then RcptToRecipients(m.rcptTo.value)
    else []
  }

  /**
   * A named entry has a non-empty name without `<`; its pieces, cleaned, are
   * free of CR and LF.
   */
  lemma ToRecipientShape(piece: string)
    ensures var r := FromCleaned(Clean(piece));
      && (r.name.Some? ==> r.name.value != "" && '<' !in r.name.value && '\r' !in r.name.value && '\n' !in r.name.value)
      && '\r' !in r.address && '\n' !in r.address
  {
    var stripped := Strip(piece);
    var addr := Clean(piece);
    match MatchNameAddress(addr)
    case Some((name, address)) =>
      MatchIsRegex(addr, name, address);
      assert stripped != [];
      assert addr[0] == stripped[0];
      assert name[0] == addr[0];
      StripNonEmpty(name);
      assert forall c :: c in name ==> c in addr;
      assert forall c :: c in address ==> c in addr;
    case None =>
  }

  /** A piece without a name before `<` keeps the whole stripped piece as its address. */
  lemma BareAddressHasNoName(piece: string)
    requires Clean(piece) != [] && Clean(piece)[0] == '<'
    ensures FromCleaned(Clean(piece)) == Recipient(None, Strip(Clean(piece)))
  {
  }

  /** There is one entry per comma-separated piece of the header the entries come from. */
  lemma OneEntryPerPiece(m: Message)
    ensures m.to.Some? && m.to.value != "" ==> |RecipientsOf(m)| == |Split(m.to.value)|
    ensures (m.to.None? || m.to.value == "") && m.rcptTo.Some? && m.rcptTo.value != "" ==>
              |RecipientsOf(m)| == |Split(m.rcptTo.value)|
    ensures (m.to.None? || m.to.value == "") && (m.rcptTo.None? || m.rcptTo.value == "") ==>
              RecipientsOf(m) == []
  {
  }

  /** An `X-RcptTo` piece keeps an inner line break (a `To` piece loses it: `ToRecipientShape`). */
  lemma RcptToKeepsLineBreaks()
    ensures RcptToRecipients("a\rb") == [Recipient(None, "a\rb")]
  {
    assert Split("a\rb") == ["a\rb"] by {
      SplitCommaFree("a\rb", []);
    }
    StripOfStripped("a\rb");
  }

  /**
   * The `To` branch of `__get_recipients`: one entry appended per piece. The
   * comprehension that cleans every piece first is pure and cannot fail, so
   * each piece is cleaned as the loop reaches it.
   */
  method ToEntries(header: string) returns (res: seq<Recipient>)
    ensures res == ToRecipients(header)
  {
    var parts := Split(header);
    res := [];
    var i := 0;
    while i < |parts|
      invariant 0 <= i <= |parts|
      invariant res == MapPieces(Entry, parts[..i])
    {
      MapPiecesSnoc(Entry, parts, i);
      var addr := Clean(parts[i]);
      res := res + [FromCleaned(addr)];
      i := i + 1;
    }
    WholePrefix(parts);
  }

  lemma WholePrefix<T>(s: seq<T>)
    ensures s[..|s|] == s
  {
  }

  /** `__get_recipients`. */
  method GetRecipients(m: Message) returns (res: seq<Recipient>)
    ensures res == RecipientsOf(m)
  {
    if m.to.Some? && m.to.value != "" {
      res := ToEntries(m.to.value);
    } else if m.rcptTo.Some? && m.rcptTo.value != "" {
      res := RcptToRecipients(m.rcptTo.value);
    } else {
      res := [];
    }
  }

  // ---------------------------------------------------------------------------
  // `MailSender.send`
  // ---------------------------------------------------------------------------

  /** The Authorization header value: scheme, one space, token. */
  function Authorization(t: AccessToken): string {
    t.tokenType + " " + t.accessToken
  }

  /** Reading the header back: the text before the first space and the text after it. */
  function ParseAuthorization(h: string): Option<(string, string)> {
    var i := FirstIndex(h, ' ');
    if i == |h| then None else Some((h[..i], h[i + 1..]))
  }

  /** A scheme without spaces and its token are recovered from the header. */
  lemma AuthorizationRoundTrip(t: AccessToken)
    requires ' ' !in t.tokenType
    ensures ParseAuthorization(Authorization(t)) == Some((t.tokenType, t.accessToken))
  {
    var h := Authorization(t);
    assert h == t.tokenType + (" " + t.accessToken);
    FirstIndexAfterFree(t.tokenType, " " + t.accessToken, ' ');
    assert h[..|t.tokenType|] == t.tokenType;
    assert h[|t.tokenType| + 1..] == t.accessToken;
  }

  datatype SendResult = SendResult(result: Outcome<Request>, state: HState, clock: int)

  /**
   * `send(message)`: a silent token request first; no token raises
   * PermissionError before anything is built or posted; a rejected post raises
   * HttpError (`raise_for_status`).
   */
  function Sent(st: HState, m: Message, now: int, net: Exchange, accepted: bool): SendResult {
    var a := Answered(st, true, now, net);
    if a.result.Raised? then SendResult(Raised(a.result.error), a.state, a.clock)
    else if a.result.value.None? then SendResult(Raised(PermissionError), a.state, a.clock)
    else if !accepted then SendResult(Raised(HttpError), a.state, a.clock)
    else SendResult(Returned(Request(Authorization(a.result.value.value), RecipientsOf(m))), a.state, a.clock)
  }

  /**
   * Without a silently obtained token the send raises PermissionError whatever
   * the mail API would say; with one, the posted request carries that token.
   */
  lemma SendGate(st: HState, m: Message, now: int, net: Exchange, accepted: bool)
    ensures var a := Answered(st, true, now, net);
      && (a.result == Returned(None) ==>
            Sent(st, m, now, net, accepted) == Sent(st, m, now, net, !accepted)
            && Sent(st, m, now, net, accepted).result == Raised(PermissionError))
      && (Sent(st, m, now, net, accepted).result.Returned? ==>
            a.result.Returned? && a.result.value.Some? && accepted
            && Sent(st, m, now, net, accepted).result.value
               == Request(Authorization(a.result.value.value), RecipientsOf(m)))
  {
  }

  /** `MailSender`. */
  class MailSender {
    const handler: DeviceCodeHandler

    constructor (handler: DeviceCodeHandler)
      ensures this.handler == handler
    {
      this.handler := handler;
    }

    /** `send`; `accepted` is whether the mail API accepts the post. */
    method Send(message: Message, now: int, net: Exchange, accepted: bool) returns (r: Outcome<Request>, later: int)
      modifies handler
      ensures SendResult(r, handler.State(), later) == Sent(old(handler.State()), message, now, net, accepted)
    {
      var token;
      token, later := handler.GetAccessToken(true, now, net);
      if token.Raised? {
        return Raised(token.error), later;
      }
      if token.value.None? {
        return Raised(PermissionError), later;
      }
      var header := Authorization(token.value.value);
      var recipients := GetRecipients(message);
      if !accepted {
        return Raised(HttpError), later;
      }
      return Returned(Request(header, recipients)), later;
    }
  }
}

# emailproxy in Dafny

emailproxy is a local SMTP relay. It accepts mail from local clients and
forwards each message to Microsoft Graph's `sendMail` endpoint. The Graph
access token comes from the OAuth 2.0 device authorization grant (RFC 8628)
and is refreshed with the refresh grant (section 6 of RFC 6749).

This project models the three pieces of sequential logic at its core and
proves properties of them:

- **The token lifecycle manager** of `auth.py`, in `tokens.dfy` and `handler.dfy`.
  - `tokens.dfy` holds the value types: the access token view, the
    access/refresh token pair, and the pending device grant. It also holds
    the selection of the active pairs: the valid ones, sorted stably by
    primary expiry, latest first.
  - `handler.dfy` holds the class `DeviceCodeHandler`. Its fields are the
    credential list and the map of pending device grants. Each of its
    methods is proved equal to a pure function: `Refreshed`, `Redeemed`
    (the polling loop `Polled`, then `Settled`), `Answered`, `Loaded` and `Saved`. The
    lemmas state their properties.
- **The send gate and the recipient list** of `mail.py`, in `mail.dfy`.
  - The send gate: no silently obtained token means no request.
  - The `Authorization` header.
  - `__get_recipients`: splitting on commas, Python's `str.strip`, removal
    of CR and LF, and the `^([^<]+)<([^>]+)>$` match.
- **One turn of the relay loop** of `proxy.py` and `process_queue`, in `relay.dfy`.
  - One turn is a silent token request, then an interactive one, then a
    save, then the queue-wait timeout, then one send or one timeout.
  - The class `RelayLoop` is proved equal to the pure function `Turn`.

`base.dfy` holds `Option`, the Python exceptions that the core raises, and
`Outcome` (returned or raised).

Time is an integer count of seconds and is passed in as a parameter. Every
call that can sleep or poll returns the clock reading it ends at. Each HTTP
reply is a parameter as well:

- the reply to a refresh request;
- the device authorization reply;
- `poll(k)`, the reply to the k-th poll of the token endpoint;
- whether the mail API accepts a post.

Python's falsiness is kept: a lifetime or interval of 0, or an empty token
type, counts as missing.

In several places the code does not do what a reader of RFC 8628, of
RFC 6749 or of the code's own names would expect. The model follows the
code:

- One would expect a pair's extended expiry never to come before its
  primary expiry. The code does not ensure it. A one-hour `expires_in`
  without `ext_expires_in` gives an extended expiry 300 seconds away
  (`ExtendedMayPrecedePrimary`).
- One would expect a successful refresh (section 6 of RFC 6749) to replace
  the old pair and hand back the new token. The code keeps the old pair
  (`RefreshOutcome`). It then goes on to the interactive device flow
  anyway, even on a silent call (`RefreshedStillPrompts`).
- A refresh request needs a refresh token (section 6 of RFC 6749). The code
  sends the request without checking that the pair has one.
- One might expect a file saved for another client to leave no
  credentials. The code returns early and keeps the list it holds
  (`ForeignClientIgnored`).
- Loading never refreshes. Expired stored pairs reach the early return of
  `__get_refresh_token` (`LoadCredentials`).
- A pair's validity tests the extended expiry. The cached answer tests the
  primary one (`ViewUsable`).
- Section 3.5 of RFC 8628 asks a client told `slow_down` to keep polling at
  a longer interval. The code stops polling, as for any error other than
  `authorization_pending` (`SlowDownIsTerminal`).

## Model

| member | source | states |
|---|---|---|
| Tokens.View | auth.py:78-96 | a pair yields a view exactly when now is before its extended expiry; the view carries the pair's token, scheme, scope and primary expiry |
| Tokens.NewPair | auth.py:49-76 | a new pair copies token, refresh token and scope, and a stored instant wins over a lifetime |
| Tokens.NewPairDefaults | auth.py:49-76 | the scheme is "Bearer" when missing or empty and kept otherwise; a given non-zero lifetime counts from now; a missing or zero lifetime means now + 300 |
| Tokens.AsDict | auth.py:84-92 | building a pair from its stored form gives back all six fields, at any clock reading, including a missing refresh token |
| Tokens.ViewUsable | auth.py:28-32 | the view of a valid pair is usable exactly while now is before the pair's primary expiry, so a valid pair can hand out an expired token |
| Tokens.ExtendedMayPrecedePrimary | auth.py:58-76 | a pair built from a one-hour `expires_in` alone has its extended expiry before its primary one, and is invalid at now + 300 while its token is still unexpired |
| Tokens.NewDeviceToken | auth.py:114-130 | the grant's expiry is now plus its lifetime; the lifetime defaults to 300 and the poll interval to 5 when missing or zero; given non-zero values are kept |
| Tokens.GrantOpenWindow | auth.py:132-136 | a grant issued at now is open at t exactly when fewer than `expires_in` seconds (300 when missing or zero) have passed |
| Tokens.ValidOnly | auth.py:236 | the comprehension holds a pair exactly when the list holds it and it is valid, and is no longer than the list |
| Tokens.ValidOnlyCounts | auth.py:236 | the comprehension holds each valid pair as many times as the list does, and no invalid pair |
| Tokens.ValidOnlyAppend | auth.py:236 | the comprehension keeps list order: filtering a concatenation gives the filtered parts, concatenated |
| Tokens.SortByExpiry | auth.py:236 | the sort is ordered by primary expiry, latest first, and is a permutation of its input |
| Tokens.Active | auth.py:235-236 | the active pairs are sorted by primary expiry, latest first, are a permutation of the valid pairs, and contain a pair exactly when it is in the list and valid |
| Tokens.ActiveFirstIsLatest | auth.py:235-236 | when some pair is valid, the first active pair has the latest primary expiry of all valid pairs |
| Tokens.ValidOnlyOfValid | auth.py:236 | filtering a list of valid pairs gives the list back |
| Tokens.SortOfSorted | auth.py:236 | the stable sort leaves a sorted list as it is |
| Tokens.ActiveIdempotent | auth.py:235-236 | selecting the active pairs twice gives the same list as selecting them once |
| Handler.RefreshExpiredMakesNoRequest | auth.py:278-280 | a refresh of an invalid pair returns nothing, leaves the credentials alone, and does not depend on the endpoint's reply |
| Handler.RefreshOutcome | auth.py:278-293 | a refresh succeeds exactly when the pair is valid and the reply carries a token that gives a valid pair; the credentials then become the active pairs plus the new one, so the old pair stays; otherwise nothing changes |
| Handler.PolledBounds | auth.py:257-276 | polling asks only while the grant is open, so an open grant's polling ends after its start and before the grant's expiry plus one interval; a closed grant stops with nothing at once; an issued pair is built from one of the replies, at the final clock reading |
| Handler.PollGrant | auth.py:257-276 | the polling loop, a method that changes nothing, ends exactly as `Polled` says: granted with the pair, stopped, or missing `error`, at the same clock reading |
| Handler.RedeemEffect | auth.py:247-276 | redeeming removes the code from the pending grants and touches no other; it either appends an issued pair to the active pairs and returns that pair's view, or leaves the credentials as they were and returns nothing or raises KeyError('error') |
| Handler.SlowDownIsTerminal | auth.py:270-276 | a `slow_down` reply to an open grant stops polling with nothing, one interval later |
| Handler.RedeemAtMostOnce | auth.py:247-255 | after any redemption attempt the device code is no longer pending, and a second attempt returns nothing without polling |
| Handler.PendingThriceThenIssued | auth.py:247-276 | three `authorization_pending` replies then a token: the view is returned at now + 20, and the credentials hold exactly the new pair |
| Handler.NoPromptCases | auth.py:176-195 | a call skips the device flow exactly when the top active pair is unexpired (its view is returned), or the call is silent and there is no active pair, or silent and the refresh failed |
| Handler.RefreshedStillPrompts | auth.py:182-195 | a successful refresh still goes on to the device flow, silent or not |
| Handler.CachedAnswer | auth.py:177-187 | a cached answer is unexpired, is the latest-expiring valid pair, changes nothing, and consults no endpoint |
| Handler.SilentWithoutPairs | auth.py:177-189 | a silent call with no valid pair returns nothing and changes nothing |
| Handler.DeviceFlowPending | auth.py:238-255 | the device flow leaves the pending grants as they were, less the code it obtained |
| Handler.PromptConsumesCode | auth.py:176-195 | after the device flow, the code it obtained is no longer pending and the other pending grants are unchanged |
| Handler.KeptValid | auth.py:213-219 | the pairs kept from stored records are all valid, and there are no more of them than records |
| Handler.KeptValidKeeps | auth.py:213-219 | every stored record whose pair is valid has that pair kept |
| Handler.KeptValidFrom | auth.py:213-219 | every kept pair is the valid pair built from some stored record |
| Handler.KeptValidAppend | auth.py:213-219 | loading keeps file order: the pairs kept from a concatenation of records are those kept from each part, concatenated |
| Handler.KeptValidOfDicts | auth.py:213-219 | loading the stored forms of valid pairs gives back those pairs in order |
| Handler.SaveThenLoad | auth.py:197-233 | for the same client at the same clock reading, loading what was saved gives the active pairs, or keeps the current list when there were none |
| Handler.LoadStoredValid | auth.py:197-219 | for the same non-empty client id, loading the stored forms of valid pairs gives them back in order, or keeps the current list when there are none |
| Handler.ForeignClientIgnored | auth.py:204-207 | a stored set for another client leaves the credentials as they are |
| Handler.DeviceCodeHandler.constructor | auth.py:166-174 | a handler starts with the given client id, no credentials and no pending grants |
| Handler.DeviceCodeHandler.Create | auth.py:166-174 | construction raises KeyError('client_id') exactly when the client id is empty; otherwise the handler is fresh and empty |
| Handler.DeviceCodeHandler.Refresh | auth.py:278-293 | the returned pair and the new credential list are those of `Refreshed` on the old list |
| Handler.DeviceCodeHandler.GetDeviceCode | auth.py:238-245 | the new grant is recorded under its device code; the code, the user code and the URI are returned |
| Handler.DeviceCodeHandler.AccessTokenForDeviceCode | auth.py:247-276 | the result, the new state and the clock are those of `Redeemed` on the old state |
| Handler.DeviceCodeHandler.GetAccessToken | auth.py:176-195 | the result, the new state and the clock are those of `Answered` on the old state |
| Handler.DeviceCodeHandler.LoadCredentials | auth.py:197-219 | the outcome and the new credentials are those of `Loaded`; a missing or empty stored client id raises AssertionError and changes nothing |
| Handler.DeviceCodeHandler.SaveCredentials | auth.py:222-233 | the payload is the client id and the stored forms of the active pairs |
| Mail.Strip | mail.py:71-81 | the result has no white space at either end, and every character in it comes from the input |
| Mail.StripIsSlice | mail.py:71-81 | the result is a slice of the input, and everything cut off before and after it is white space |
| Mail.StripIdempotent | mail.py:71-76 | stripping twice is the same as stripping once |
| Mail.Split | mail.py:71-81 | splitting on commas gives at least one piece, and no piece contains a comma |
| Mail.JoinSplit | mail.py:71-81 | joining the pieces with commas gives the header back |
| Mail.SplitJoin | mail.py:71-81 | splitting comma-free pieces joined with commas gives the pieces back |
| Mail.RemoveLineBreaks | mail.py:71 | the result has no CR or LF, is no longer than the input, and is the input itself when the input has neither |
| Mail.RemoveLineBreaksKeeps | mail.py:71 | a character is in the result exactly when it is in the input and is neither CR nor LF |
| Mail.RemoveLineBreaksAppend | mail.py:71 | removal keeps order: removing from a concatenation gives the two removals, concatenated |
| Mail.MatchIsRegex | mail.py:72 | the match yields the groups (name, address) exactly when the piece is name + "<" + address + ">", with a non-empty name without '<' and a non-empty address without '>' |
| Mail.ToRecipientShape | mail.py:71-76 | a named entry has a non-empty name without '<'; names and addresses from `To` pieces have no CR or LF |
| Mail.BareAddressHasNoName | mail.py:72-76 | a cleaned piece starting with '<' gets no name; its whole stripped text is the address |
| Mail.OneEntryPerPiece | mail.py:67-83 | `To` when non-empty, else `X-RcptTo` when non-empty, gives one entry per comma-separated piece, empty pieces included; otherwise the list is empty |
| Mail.ToRecipientsAt | mail.py:67-77 | the `To` branch gives one entry per comma-separated piece, and entry i is the cleaned and matched piece i |
| Mail.RcptToKeepsLineBreaks | mail.py:79-81 | a CR inside an `X-RcptTo` piece is kept in its address, whereas a `To` address never holds one (`ToRecipientShape`) |
| Mail.ToEntries | mail.py:67-77 | the appending loop over the `To` pieces builds exactly the list of `ToRecipients` |
| Mail.GetRecipients | mail.py:66-83 | the recipients are those of `RecipientsOf`: `To` when non-empty, else `X-RcptTo` when non-empty, else none |
| Mail.AuthorizationRoundTrip | mail.py:22-23 | the header is the scheme, one space, then the token: a scheme without spaces and the token are read back from it |
| Mail.SendGate | mail.py:17-30 | when the silent token request returns nothing, the send raises PermissionError whatever the mail API would say; a successful send used that token and the message's recipients |
| Mail.MailSender.constructor | mail.py:14-15 | the sender keeps the given handler |
| Mail.MailSender.Send | mail.py:17-30 | the outcome, the handler's new state and the clock are those of `Sent` on the old state |
| Relay.WaitSeconds | proxy.py:50-53 | the wait is the remaining life less 30 when more than 60 seconds remain, the remaining life otherwise; it is negative exactly when the remaining life is |
| Relay.WaitExamples | proxy.py:50-53 | 100 s waits 70, 61 waits 31, 60 waits 60, 40 waits 40 |
| Relay.InteractiveOnlyAfterSilentMiss | proxy.py:41-44 | a turn asks interactively exactly when the silent request returned no token |
| Relay.SavesOnlyAfterInteractiveSuccess | proxy.py:41-48 | a turn saves exactly when the interactive request returned a token, and saves the active pairs held right after it |
| Relay.NoTokenRestarts | proxy.py:44-48 | when neither request gives a token, the queue, the saves and the posts are unchanged |
| Relay.DrainKeepsSaved | proxy.py:50-59 | waiting and sending never record a save |
| Relay.DrainEnds | proxy.py:50-59 | once a token is in hand, the turn ends delivered, timed out or halted, never as a token miss |
| Relay.DrainSendsAtMostHead | proxy.py:50-59 | once a token is in hand, the queue either stays as it is with nothing posted, or loses its head, and only a delivery posts exactly one request for the head's recipients |
| Relay.OneMessagePerTurn | proxy.py:40-59 | the same holds for a whole turn |
| Relay.TimeoutLeavesMargin | proxy.py:50-59 | a timeout happens only on an empty queue, and the clock then stands 30 s before the token's expiry if it had more than 60 s of life, and at its expiry otherwise |
| Relay.CachedTokenEmptyQueue | proxy.py:40-59 | an empty queue and a cached pair with 45 s left: the turn times out 45 s later and changes nothing else |
| Relay.CachedTokenDelivers | proxy.py:40-59 | one queued message and a cached pair with 100 s left: the message is posted with that pair's token and the queue is empty |
| Relay.RelayLoop.constructor | proxy.py:29-33 | the loop starts with an empty queue and nothing saved or posted |
| Relay.RelayLoop.Enqueue | smtp.py:18-19 | an arriving message is appended to the back of the queue |
| Relay.RelayLoop.Step | proxy.py:40-59 | the turn's end and the new state are those of `Turn` on the old state |
| Relay.RelayLoop.DrainQueue | proxy.py:50-59 | the end and the new state are those of `Drain` on the old state |
| Relay.RelayLoop.Shutdown | proxy.py:64 | one more save, of the active pairs at the current clock |
| Relay.RelayLoop.ProcessQueue | proxy.py:12-15 | messages are taken from the front in FIFO order until the queue is empty |

## Left out

- HTTP calls (`requests.post`, `raise_for_status`) are not modelled as a network. Their replies are parameters. The token endpoint's JSON is reduced to three shapes: a record with `access_token`, an `error`, or neither.
- `datetime.now` and `time.sleep` are an integer clock in whole seconds. Time passes only while polling and while waiting on the queue. Float lifetimes and intervals, and lifetimes given as the string "0", are not modelled.
- A device authorization reply that lacks `device_code`, `user_code` or `verification_uri` would raise KeyError. Such a reply is not modelled. A negative poll interval is not modelled either.
- A token record without an `access_token` key is not modelled. That key is required when a pair is built.
- File and JSON I/O (`os.path.isfile`, `os.makedirs`, `open`, `json.load`, `json.dumps`) is left out. Only the parsed content (`client_id`, `tokens`) and the payload written are modelled. ISO-8601 conversion is the identity on integer instants.
- All `print` output is left out, as are `__str__` and `__repr__`. This includes the prompt that shows the user code and verification URI.
- `authorize_url`, `token_url` and the form fields of each request are left out. They only shape the HTTP requests.
- `MailSender.__get_message_body` is left out: the MIME walk, payload decoding and the JSON body. So is its assertion that a `text/plain` part exists. `__get_plain_text` is unused and left out.
- smtp.py's aiosmtpd handler is reduced to `Enqueue`. The listener runs on its own thread, so messages arriving during a wait are not modelled. `Enqueue` between turns stands in for them. `Controller` start/stop and the `KeyboardInterrupt` that leads to `Shutdown` are left out.
- config.py and the `main` / `__main` entry points are not part of this model. The entry points cover validation of the configuration and reading the `.eml` test file.
- Tokens.SortByExpiry: stability (the order of equal expiries) is built into the definition but is not stated as a separate property.
- Mail.AuthorizationRoundTrip: the round trip is stated only for schemes without spaces. A scheme that contains one cannot be read back.

# SpaceWH membership initiation API: a Dafny model

This project models the core of the membership initiation service (`backend/mis-api/main.py`). The service does four things:

- It validates its security settings at start-up.
- It runs the invitation workflow over a record store. An admin creates an invitation (an 18-character code and a 4-digit PIN). The invitee validates it and submits onboarding. An admin approves the membership. Approval mints a credential `MEMBER-<6 upper-case hex>-<clock seconds>`, guarded against replay.
- It keeps an in-memory registry of websocket connections with personal sends and broadcast.
- It runs a per-connection receive loop. Clients authenticate with a membership key and chat.

Modules, leaf first:

- `Wrappers`: `Option` and `Result`.
- `Text`: ASCII character classes and Python's `any`. Also the upper-case hex and decimal encodings used in membership keys, each with a parser proved to invert it.
- `Settings`: the field validators of the `Settings` class, and loading them together.
- `Records`: invitation, onboarding and membership rows, the store as a value `Db`, and the store's equality-filter queries (`Where`). Store failures are a `Network` value: which collections cannot be read, and how the one write of a request ends. A write can be stored with a non-empty JSON echo, stored with an empty JSON echo, stored with a body that is not JSON (the decode then raises an exception the store helper does not catch, so the framework answers 500 after the row is stored), or refused.
- `Issuance`: each REST endpoint as a function from the store, the request, the network's behaviour, the random draws and the clock readings to the new store and the HTTP reply.
- `IssuanceProperties`: properties relating several requests: key format and uniqueness, replay prevention, the one-active-membership invariant, and the two findings below.
- `Store`: the class `RecordStore`. Its three collections are fields, and each endpoint method queries, checks and appends step by step. Each method is proved to end in the store and reply that `Issuance` specifies.
- `Connections`: the class `ConnectionManager` over `map<ClientId, Socket>`. Whether a send succeeds is an oracle `alive`.
- `Gateway`: one turn of the websocket loop (`Step`), a session as a sequence of turns (`Run`), what the client receives (`Deliver`), and the endpoint method `Serve`, which drives a `ConnectionManager`. Key validation, send success and (for the intended chat handling only) the chat responder are oracles indexed by the turn.

## Model

| member | source | states |
|---|---|---|
| `Text.Any` | backend/mis-api/main.py:86-89 | `any(p(c) for c in s)` is true exactly when some position of `s` satisfies `p` |
| `Text.HexUpper` | backend/mis-api/main.py:373 | the upper-cased hex of n bytes is 2n characters, all in 0-9/A-F |
| `Text.HexRoundTrip` | backend/mis-api/main.py:373 | the hex text of any bytes parses back to exactly those bytes |
| `Text.Decimal` | backend/mis-api/main.py:374-375 | `str()` of a non-negative timestamp is a non-empty run of ASCII digits |
| `Text.DecimalRoundTrip` | backend/mis-api/main.py:374-375 | the decimal text of any natural number parses back to that number |
| `Settings.ValidateAdminUsername` | backend/mis-api/main.py:73-78 | the user name is accepted unchanged iff it has at least 3 characters; otherwise the fixed error message |
| `Settings.ValidateAdminPassword` | backend/mis-api/main.py:80-92 | accepted unchanged iff length ≥ 12 and it has an upper-case letter, a lower-case letter, a digit and a non-alphanumeric character; a short password always gets the length message, a long weak one the character-class message |
| `Settings.ValidateJwtSecret` | backend/mis-api/main.py:94-100 | accepted unchanged iff at least 32 characters |
| `Settings.ValidateSupabaseKey` | backend/mis-api/main.py:102-108 | accepted unchanged iff non-empty and neither placeholder; either placeholder is refused in either key field |
| `Settings.LoadSecuritySettings` | backend/mis-api/main.py:128-135 | settings load iff every validator accepts; otherwise 1-5 messages are reported, each present exactly when its validator failed |
| `Settings.StrongPasswordExtends` | backend/mis-api/main.py:84-91 | appending characters to an accepted password keeps it accepted |
| `Settings.StrongPasswordHasFourDistinctChars` | backend/mis-api/main.py:86-91 | every accepted password contains at least four different characters |
| `Settings.NoSpecialCharacterRejected` | backend/mis-api/main.py:89-91 | a 12-character password of letters and a digit only is rejected with the character-class message |
| `Settings.MixedPasswordAccepted` | backend/mis-api/main.py:84-92 | a 12-character password with all four classes is accepted |
| `Records.Where` | backend/mis-api/main.py:288-303 | a store query returns no more rows than stored, and a row is returned iff it is stored and matches the filter |
| `Records.WhereAppend` | backend/mis-api/main.py:288-303 | after appending a row, a query returns its former answer plus the new row if that row matches |
| `Issuance.VerifyAdmin` | backend/mis-api/main.py:227-238 | 500 iff the given or the configured user name or password holds a non-ASCII character, which the comparison refuses by raising; otherwise access is granted iff both match, returning the user name, and refused with 401 |
| `Issuance.InvitationCode` | backend/mis-api/main.py:308 | the drawn code is 18 characters, all ASCII letters or digits |
| `Issuance.Pin` | backend/mis-api/main.py:309 | the drawn PIN is 4 ASCII digits |
| `Issuance.CreateInvitation` | backend/mis-api/main.py:305-317 | exactly one `pending` invitation with an 18-alphanumeric code and 4-digit PIN is appended iff the write lands. Success iff the store also answers with JSON, and then that invitation is returned. A refused write answers 500 and changes nothing. A body that is not JSON answers 500 with the invitation already stored: the decode at main.py:283 raises outside the helper's `httpx.HTTPError` handler |
| `Issuance.ValidateInvitation` | backend/mis-api/main.py:319-330 | valid iff the store is readable and some invitation matches code, PIN and status `pending`; else 404, or 500 when unreadable; never writes |
| `Issuance.SubmitOnboarding` | backend/mis-api/main.py:332-344 | succeeds iff the store is readable, some invitation has the code (whatever its status), and the write is stored with a JSON answer. One onboarding row is appended iff the lookup found the code and the write landed. That includes a body that is not JSON, which answers 500. Invitations and memberships are never changed. The error is 500 for an unreadable store, 404 for an unknown code, and 500 for a failed write |
| `Issuance.MembershipCode` | backend/mis-api/main.py:373 | the code is `MEMBER-` followed by six upper-case hex digits |
| `Issuance.MembershipKey` | backend/mis-api/main.py:374-375 | the key is the code, `-`, then only digits (the clock reading in whole seconds) |
| `Issuance.Approve` | backend/mis-api/main.py:346-399 | the answer is 409 iff the replay guard's read succeeds and finds an active membership, and then nothing is written. The answer is the store helper's 500 iff a collection read on the way fails or the final write is refused. Otherwise the checks run in order: 404 iff no invitation has the code; then 400 iff the first such invitation is not `onboarded`. A membership is written iff every check passed and the write landed, and then exactly one row is appended: active, with the request's code, the minted code and key, and `issued_to` from the `user_name` attribute or else the invited name. Success iff additionally the store answered with non-empty JSON, and the reply carries that row's code and key. An empty JSON echo answers 500 "Error saving membership record." and a body that is not JSON the framework's 500, both with the row stored. Every other failure writes nothing. Invitations and onboarding are never touched |
| `Issuance.ValidateKey` | backend/mis-api/main.py:401-411 | valid iff the store is readable and some membership has that `membership_code` and a `status` of `active`; else 404 or 500 |
| `IssuanceProperties.NonAsciiAdminPasswordLocksOut` | backend/mis-api/main.py:227-229 | the configured admin password `Abcdefghij1€` passes the strength check, yet every admin request whose Basic credentials reach the comparison then answers 500 (a request without valid Basic credentials is refused with 401 by the framework before the comparison runs) |
| `IssuanceProperties.MembershipKeyRoundTrip` | backend/mis-api/main.py:373-375 | a membership key yields back the random bytes and timestamp it was built from |
| `IssuanceProperties.IssuedKeysDistinct` | backend/mis-api/main.py:373-375 | keys minted from different random bytes or different seconds differ |
| `IssuanceProperties.ApprovedKeyFormat` | backend/mis-api/main.py:373-399 | a successful approval returns a `MEMBER-` + 6 hex code and a key that is that code, `-`, and a timestamp that parses back |
| `IssuanceProperties.ApproveReplayRejected` | backend/mis-api/main.py:350-389 | once an approval has stored a membership (even one that then answered 500), any later approval of the same code whose guard read succeeds answers 409 and writes nothing |
| `IssuanceProperties.ApprovePreservesSingleActive` | backend/mis-api/main.py:350-389 | approval preserves "no two active memberships share an invitation code" |
| `IssuanceProperties.ApproveNeedsOnboarded` | backend/mis-api/main.py:362-368 | while no invitation is `onboarded`, approval writes nothing |
| `IssuanceProperties.EndpointsNeverOnboard` | backend/mis-api/main.py:310-316 | creation, onboarding and approval, as written, never produce an `onboarded` invitation |
| `IssuanceProperties.ScenarioAsWritten` | backend/mis-api/main.py:305-368 | on an empty store, create, then onboard, then approve with every store call succeeding, answers 400 |
| `IssuanceProperties.MarkOnboarded` | backend/mis-api/main.py:332-344 | the intended status update: every invitation with the code becomes `onboarded`, the others are untouched |
| `IssuanceProperties.SubmitOnboardingMarked` | backend/mis-api/main.py:332-344 | same replies as onboarding as written. On success the store is exactly: invitations with the code marked `onboarded`, the onboarding record appended, memberships unchanged. On failure the store is what onboarding as written leaves, and invitations and memberships are unchanged |
| `IssuanceProperties.ScenarioCorrected` | backend/mis-api/main.py:305-399 | with the marking onboarding, create, onboard, approve succeeds, and approving again answers 409 |
| `IssuanceProperties.ApproveInvisibleToValidateKey` | backend/mis-api/main.py:378-411 | no approval changes what key validation answers for any key |
| `IssuanceProperties.IssuedCodeRejectedAsWritten` | backend/mis-api/main.py:401-411 | the code returned by a successful approval is refused with 404 by key validation unless some other row already carries `status = active` |
| `IssuanceProperties.ValidateKeyActive` | backend/mis-api/main.py:401-411 | intended key validation: valid iff a membership with that code is active |
| `IssuanceProperties.IssuedCodeValidates` | backend/mis-api/main.py:401-411 | with the intended filter, the code returned by a successful approval validates |
| `Store.RecordStore.CreateInvitation` | backend/mis-api/main.py:305-317 | the store and reply after the step-by-step creation are those `Issuance.CreateInvitation` specifies |
| `Store.RecordStore.ValidateInvitation` | backend/mis-api/main.py:319-330 | the reply is the one `Issuance.ValidateInvitation` specifies; reads only |
| `Store.RecordStore.SubmitOnboarding` | backend/mis-api/main.py:332-344 | the store and reply after the step-by-step onboarding are those `Issuance.SubmitOnboarding` specifies |
| `Store.RecordStore.ApproveMembership` | backend/mis-api/main.py:346-399 | guard, lookup, status check, mint and insert in that order end in the store and reply `Issuance.Approve` specifies |
| `Store.RecordStore.ValidateKey` | backend/mis-api/main.py:401-411 | the reply is the one `Issuance.ValidateKey` specifies; reads only |
| `Store.ApproveTwice` | backend/mis-api/main.py:350-399 | approving one code twice against the same store: if the first succeeds, the second answers 409 and exactly one membership was added |
| `Connections.AfterBroadcast` | backend/mis-api/main.py:499-508 | a client stays registered, with the same socket, iff it was registered and was excluded or its send succeeded |
| `Connections.Reached` | backend/mis-api/main.py:499-508 | a broadcast reaches exactly the registered, non-excluded clients whose send succeeds |
| `Connections.ConnectionManager.Connect` | backend/mis-api/main.py:479-483 | the id is bound to the socket and every other entry is unchanged |
| `Connections.ConnectionManager.Disconnect` | backend/mis-api/main.py:485-489 | only that id is removed; an absent id changes nothing |
| `Connections.ConnectionManager.SendPersonalMessage` | backend/mis-api/main.py:491-497 | delivered iff the id is registered and its send succeeds; a failed send removes that id only |
| `Connections.ConnectionManager.Broadcast` | backend/mis-api/main.py:499-508 | iterating a snapshot, the registry ends as `AfterBroadcast` and the reached clients are `Reached`: exactly the failed non-excluded clients are removed |
| `Connections.BroadcastPartition` | backend/mis-api/main.py:499-508 | the removed ids are exactly the addressed clients whose send failed; reached clients stay; the excluded client stays and is not sent to |
| `Gateway.ProcessChatMessage` | backend/mis-api/main.py:603-623 | as written the payload is always an error. It is "Invalid authentication token" iff re-validation refuses the token. Otherwise it is "Failed to process message": a crash, or an accepted token whose route result is a plain dictionary (main.py:445), so reading `.response` raises |
| `Gateway.IntendedChatMessage` | backend/mis-api/main.py:603-623 | intended: content iff the token re-validates, and then the responder's text for that user; otherwise the invalid-token or processing-failure payload |
| `Gateway.ChatAsWrittenLosesContent` | backend/mis-api/main.py:603-623 | as written and intended chat handling agree except where the intended one answers with content, which as written becomes "Failed to process message" |
| `Gateway.ChatAnswers` | backend/mis-api/main.py:556-581 | an authenticated, non-empty chat message gets one chat_response carrying an error payload, and the token is kept |
| `Gateway.NoChatContentAsWritten` | backend/mis-api/main.py:566-623 | no chat_response of any session, as written, ever carries content |
| `Gateway.Step` | backend/mis-api/main.py:521-601 | the session closes iff the frame is unshaped, or is an authenticated chat message whose payload is not an object, or validation raises on an auth frame. Otherwise at most one reply is sent. The token becomes the frame's token iff the frame is an accepted auth, and is kept otherwise. Only other-typed frames and empty chat after authentication go unanswered. A chat response needs an authenticated session |
| `Gateway.UnvalidatedAnswers` | backend/mis-api/main.py:556-595 | malformed JSON gets "Invalid message format"; chat before auth gets "Authentication required", even with a payload that is not an object, which after auth closes the session; empty chat after auth and other types get nothing; none changes the token |
| `Gateway.ReauthenticationAnswers` | backend/mis-api/main.py:526-554 | an accepted auth overwrites any earlier token and answers auth_success with the user name; a missing, empty or refused token answers auth_failed and keeps the earlier token |
| `Gateway.Run` | backend/mis-api/main.py:513-601 | after n frames at most n replies were sent and the token is absent or non-empty |
| `Gateway.TokenIsLastGrant` | backend/mis-api/main.py:516-554 | while the session runs, its token is the token of the latest accepted auth frame |
| `Gateway.NoChatBeforeGrant` | backend/mis-api/main.py:556-581 | until an auth frame is accepted, the session receives no auth_success and no chat_response |
| `Gateway.Deliver` | backend/mis-api/main.py:513-595 | a client is only ever lost at a turn whose send failed (`send_personal_message`, main.py:491-497, deregisters it) |
| `Gateway.DeliveredBeforeLoss` | backend/mis-api/main.py:513-595 | the client receives exactly the replies of the turns before its first failed send, or every reply if no send failed |
| `Gateway.LostAtFirstFailedSend` | backend/mis-api/main.py:491-497 | every send due before the turn the client was lost (every send due, if it never was) succeeded, so `lostAt` is the first failed send |
| `Gateway.AliveReceivesAll` | backend/mis-api/main.py:513-595 | a client whose every send succeeds is never lost and receives every reply |
| `Gateway.ClosedDeliversNothing` | backend/mis-api/main.py:513-601 | once the loop has ended, further frames deliver nothing |
| `Gateway.Serve` | backend/mis-api/main.py:513-601 | the session ends as `Run` over all frames, and the client receives `Deliver`'s replies. The send oracle is indexed by the turn. After each turn read, the client is registered iff no send has failed yet; from the first failed send on it stays deregistered while the loop goes on. At the end it is deregistered, leaving every other entry as it was |

## Left out

- HTTP framework plumbing is not modelled: app construction, middleware, CORS and CSP headers, route decorators, the root endpoint (main.py:149-201, 240-244). The 401 raised by the admin dependency before a handler runs is modelled by `Issuance.VerifyAdmin` alone. It is not composed into the endpoint functions.
- Store HTTP calls are replaced by the `Network` value. This covers `safe_get_from_supabase`, `safe_post_to_supabase` and `supabase.*` (main.py:246-303). The upstream error text in the 500 detail is not modelled. A refused write is taken not to have landed.
- The health check and the admin listing endpoints are plain store reads and are not modelled (main.py:246-267, 450-470).
- Random draws and clock readings are parameters: the draws of `random.choices`, the three bytes of `secrets.token_hex(3)`, and the two `datetime.utcnow()` readings. Their generation and entropy are not modelled. The two readings are independent parameters. `int(datetime.utcnow().timestamp())` reads the naive UTC time as local time, so the key's number is Unix seconds only on a host whose zone is UTC. Elsewhere it is shifted by the zone's offset. The model takes whatever whole number the reading gives. Negative readings (a minus sign) are not modelled.
- `Issuance.VerifyAdmin` uses plain equality in place of `secrets.compare_digest`, after modelling its TypeError on non-ASCII strings. Timing is not modelled. The framework's HTTP Basic decoding, which decides what credential strings reach the check, is not modelled.
- `gpt_chat`, `get_current_user` and the reply texts are not modelled. As written, the chat route's result never reaches a websocket client. For the intended handling, the responder is an oracle of the turn and the user name; the source's responder ignores the prompt. `database.py` (`supabase.validate_key`) is not part of this model. Its answer is the `KeyCheck` oracle.
- `models.py` is not part of this model. Whether the approval request has a `user_name` attribute is an explicit parameter (`NameAttr`).
- Concurrency is not modelled: the `asyncio.Lock`, `await` interleavings, and two approvals racing the replay guard. Operations run one at a time. In the source, `broadcast` holds the non-reentrant lock while calling `disconnect`, which takes it again, so a failing peer would block that broadcast. The model removes the peer inline and does not reproduce the block.
- JSON encoding and decoding are not modelled. Inbound frames are the `Frame` datatype, with `Malformed` for a decode error, `Unshaped` for JSON on which `.get` raises at once (a top-level value or an auth payload that is not an object), and `ChatBadPayload` for a chat message whose payload is not an object (read only after the token check). Outbound messages are the `Reply` datatype.
- `Connections.ConnectionManager.Broadcast` visits clients in an arbitrary order, not Python's insertion order. Its result does not depend on the order.
- Python's Unicode `isupper`/`islower`/`isdigit`/`isalnum` are modelled on ASCII only. A non-ASCII letter counts as a special character here.
- The remaining settings handling is not modelled: `parse_allowed_origins`, the numeric field constraints, `.env` loading, and pydantic's wrapping of messages (main.py:26-72, 110-126).
- Store row order: the "first" invitation with a code is the first in store order. The store itself promises no order.

## Findings

| source | as written | input that shows it | evidently intended | confidence | as-written member | corrected member |
|---|---|---|---|---|---|---|
| backend/mis-api/main.py:332-344 | onboarding stores a row but never sets the invitation's status to `onboarded`, which approval requires (line 366) | on an empty store: create an invitation, submit onboarding for its code, approve it; the answer is 400 "Invitation not onboarded yet." | submitting onboarding marks the invitation `onboarded`, so the approval succeeds and a second one is 409 | medium, not executed (a store-side trigger outside this code could set the status) | `IssuanceProperties.ScenarioAsWritten` | `IssuanceProperties.SubmitOnboardingMarked` |
| backend/mis-api/main.py:614-616 | the websocket chat path calls the route function directly, gets the plain dictionary of line 445, and reads `.response` from it, which raises; the handler answers "Failed to process message" | authenticate with a key that validates, then send a non-empty `chat_message`; the `chat_response` payload is `{"error": "Failed to process message"}` | the payload carries the route's `response` text as `content` | high, not executed | `Gateway.NoChatContentAsWritten` | `Gateway.IntendedChatMessage` |
| backend/mis-api/main.py:404-407 | key validation filters on `status = active`, but approval writes `active = true` and no `status` (line 383) | approve an onboarded invitation, then validate the returned `membership_code`; the answer is 404 | filter on `active = true` | medium, not executed (the table could give `status` a default of `active`) | `IssuanceProperties.IssuedCodeRejectedAsWritten` | `IssuanceProperties.ValidateKeyActive` |

The endpoint functions and the `RecordStore` methods follow the code as written. The corrected definitions stand beside them. `IssuanceProperties.ScenarioCorrected`, `IssuanceProperties.IssuedCodeValidates` and `Gateway.ChatAsWrittenLosesContent` prove the intended property of each, or relate it to the code as written.

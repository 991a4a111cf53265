# Cookie sessions over Redis: a verified model

This project models the session core of a Go web service (gin, go-redis,
dgrijalva/jwt-go). The model covers:

- **Sign-in**: validate `{email, password}`, find the user, compare passwords and
  sign an HS256 token that expires in 60 minutes. Then store the session record
  `sessionID → {token, userId}`, store the presence record
  `onlineUser:<sessionID> → {username, userId}` with the same TTL, and set the
  `session_id` cookie. The Kafka variant returns the session id in its reply
  instead of a cookie.
- **Logout**: delete both keys and clear the cookie.
- **The authorization gate**: read the cookie, `GET` the record, decode it,
  verify its token, and hand on the record's `userId`.
- **The online-users listing**: `KEYS onlineUser:*`, one pipelined `GET` per key,
  then decode every value.
- **The input validators** and their error messages.

## Modules

- `wrappers.dfy`: `Option` and `Result`.
- `models.dfy`: the user records and the textual UUID, a subset type.
- `validation.dfy`: the validators.
  - The email regular expression is a split predicate: local part, `@`, domain,
    `.`, top-level part.
  - A deterministic matcher splits at the first `@` and the last `.`. It is
    proved to accept exactly the strings the predicate describes.
  - Password length is Go's `len`, the number of UTF-8 bytes.
  - `NewValidationResult` is the constructor of the `ValidationResult` datatype.
- `redis.dfy`: the keyspace and the client.
  - The keyspace is a map from keys to a value and an absolute expiry instant.
  - A `Client` class holds the keyspace and a ghost log of the writes that took
    effect.
  - Its methods are `Set` (`SET … PX`), `Del`, `Keys` (a prefix pattern) and
    `Exec` (a pipeline of `GET`s).
  - Each command takes a `Link` parameter that says whether it reaches the server.
- `sessions.dfy`: the clock and the records.
  - The clock is in nanoseconds. `Time.Unix` rounds down;
    `int(d.Seconds())` truncates.
  - `Claims`, `SessionData` and the presence record are encoded as JSON objects.
  - The signer/verifier is an opaque pair of functions. The only property ever
    assumed of it is `RoundTrips`: a signed token verifies, with its claims,
    before its expiry second.
- `auth.dfy`: the handlers.
  - Every handler that writes is a method proved against an *effect* function.
    The effect gives the writes the handler issues, in order, and its answer.
  - The gate is a function of the cookie, a snapshot of the store, the clock, whether
    its GET reaches the server, and the verifier, so it cannot write.
  - The listing is a method that fills the command array and collects the
    replies, proved against a function of the keyspace.
- `lifecycle.dfy`: the properties that relate several steps.
  - Which writes happen on which path, and in which order.
  - What the gate accepts after a sign-in and after a logout.
  - What the listing returns.
  - The invariant `PresenceShadowsSession`: every presence key names a UUID
    session key that exists and expires no earlier. Sign-in and a complete
    logout preserve it.

## Behaviour worth knowing

- An unknown email answers 500 "No user found", not 401 (`handlers/handlers_auth.go:56-61`).
- A failed presence write is fatal. It answers 500, sets no cookie and keeps the
  session key already written (`handlers/handlers_auth.go:123-129`).
- Presence keys are `onlineUser:<session id>` (`handlers/handlers_auth.go:121`).
- A listing with no keys answers `"onlineUsers": null`, not an empty list
  (`handlers/handlers_auth.go:238-244`).
- Logout's success body uses the key `"error"` (`handlers/handlers_auth.go:172-174`).
- Undecodable presence entries are not skipped: the first value that is neither a JSON
  object nor `null` answers 500 (`handlers/handlers_auth.go:270-277`). A `null` value is
  kept, as a nil entry.
- The per-key `continue` cannot skip anything (`handlers/handlers_auth.go:264-268`).
  go-redis's `Pipeline.Exec` reports the first failed command, and a missing key
  (`redis.Nil`) counts as a failure. So a key that expires between `KEYS` and
  `EXEC` makes the whole listing answer 500 (`ListingFailsOnExpiredKey`).
- The cookie's max-age is computed from a clock reading taken after the two writes, so
  it is 3599 rather than 3600 when less than a second has passed (`SignInSetsCookie`).
- A logout whose second `DEL` fails leaves an orphaned presence key behind
  (`LogoutPartialFailureOrphansPresence`). The response still clears the cookie.
- A presence key presented as the cookie, and a stored `null` session record, both
  reach the token check with the empty token (`PresenceKeyAsCookie`). jwt-go's
  `ParseWithClaims` rejects the empty string, which does not have three segments, so
  the program answers 401 "Invalid token" in both cases
  (`handlers/handlers_auth.go:205-211`). The model leaves this to the verifier
  parameter.
- Logout is mounted behind the gate in the program's router, so a request without a live
  session is normally answered by the gate; the handler's own 401 is what it does when
  called without a cookie.

## Model

| member | source | states |
|---|---|---|
| `Validation.ValidateEmail` | utils/validation.go:23-33 | invalid exactly when an error is present; the empty email gets "empty email is not allowed" before the pattern is tried; a non-empty email is valid iff it matches the pattern, and otherwise gets "email is not valid" |
| `Validation.EmailMatchesIff` | utils/validation.go:14 | the first-'@'/last-'.' matcher accepts exactly the strings of `^[a-zA-Z0-9._%+-]+@[a-zA-Z0-9.-]+\.[a-zA-Z]{2,}$` |
| `Validation.SplitIsFound` | utils/validation.go:14 | any split the pattern admits is the one at the first '@' and the last '.', so the match is unique |
| `Validation.EmailMatches` | utils/validation.go:28 | the matcher `MatchString` is modelled by: first '@', last '.', and the three character classes between them (its language is stated by `Validation.EmailMatchesIff`) |
| `Validation.IndexOfFrom` | utils/validation.go:14 | returns the first position of a character at or after a start, or reports that there is none |
| `Validation.LastIndexBelow` | utils/validation.go:14 | returns the last position of a character below a bound, or reports that there is none |
| `Validation.ValidatePassword` | utils/validation.go:35-41 | valid iff the UTF-8 byte length is at least 6; invalid exactly when the error is present, and then it is the length message |
| `Validation.Utf8Length` | utils/validation.go:36 | Go's `len` of a string: the sum of the UTF-8 widths of its characters (bounds in `Validation.Utf8LengthBounds`) |
| `Validation.Utf8LengthBounds` | utils/validation.go:36 | Go's byte length is between the character count and four times it, and equals the character count iff the text is ASCII |
| `Validation.ValidateUserToAuth` | utils/validation.go:43-55 | at most two messages; none iff both validators pass; the email message comes first and the password message last; two iff both fail |
| `Validation.PasswordBoundary` | utils/validation.go:35-41 | "secret" (6) passes, "secre" (5) fails with "min length of password must be at least 6 chars." |
| `Validation.PasswordCountsBytes` | utils/validation.go:36 | three two-byte characters pass and two fail: the length is in bytes |
| `Validation.ExampleCredentialsAreValid` | utils/validation.go:43-55 | "user@example.com" with "secret1" produces no messages |
| `Validation.EmptyEmailAndShortPassword` | utils/validation.go:24-26 | an empty email and a short password give both messages, the emptiness message first |
| `Redis.Get` | handlers/handlers_auth.go:187 | GET: the stored value while the key lives, missing once its expiry has passed or it was never set; its laws are `Redis.GetAfterSet`, `Redis.GetAfterDel` and `Redis.GetUnaffected` |
| `Redis.GetAfterSet` | handlers/handlers_auth.go:105 | a key just SET reads back its value until now + TTL, and as missing afterwards |
| `Redis.GetAfterDel` | handlers/handlers_auth.go:152 | a key just deleted reads as missing |
| `Redis.GetUnaffected` | handlers/handlers_auth.go:123 | a SET or DEL leaves every other key reading as before |
| `Redis.Apply` | handlers/handlers_auth.go:105 | SET adds or replaces one key with its expiry; DEL removes one key; every other key is unchanged |
| `Redis.ListingLength` | handlers/handlers_auth.go:230 | a KEYS reply is as long as the set of matching live keys |
| `Redis.DistinctLength` | handlers/handlers_auth.go:230 | a list without repeats is as long as the set of its elements |
| `Redis.Client.Set` | handlers/handlers_auth.go:105 | when the command reaches the server, the key holds the value until now + TTL, the write is logged and the error is nil; otherwise the error is the link's and nothing changes |
| `Redis.Client.Del` | handlers/handlers_auth.go:152 | when the command reaches the server, the key is gone (an absent key is not an error); otherwise the error is the link's and nothing changes |
| `Redis.Client.Keys` | handlers/handlers_auth.go:230 | every matching live key exactly once, or the link's error |
| `Redis.Client.Exec` | handlers/handlers_auth.go:247-252 | the replies are `Replies`: one per queued key, in queue order, each that key's GET; the error is nil iff every GET hit, and otherwise it is redis.Nil or the link's error |
| `Sessions.UnixSeconds` | handlers/handlers_auth.go:75 | `Time.Unix()`: the whole second that contains the instant, rounded down |
| `Sessions.WholeSeconds` | handlers/handlers_auth.go:131 | `int(d.Seconds())`: whole seconds, rounded toward zero, on both signs |
| `Sessions.EncodeSession` | handlers/handlers_auth.go:91-96 | the session record as the JSON object {token, userId}; it decodes back to itself (`Sessions.SessionRoundTrip`) |
| `Sessions.EncodePresence` | handlers/handlers_auth.go:113-118 | the presence record as the JSON object {username, userId} (`Sessions.PresenceRoundTrip`) |
| `Sessions.DecodeSession` | handlers/handlers_auth.go:195-196 | fails exactly on text that is neither an object nor null, and on a userId that is not a UUID; `null` gives the zero record; otherwise a missing token reads as "" and a missing userId as the nil UUID |
| `Sessions.SessionRoundTrip` | handlers/handlers_auth.go:91-96 | the session record that sign-in writes decodes at the gate to the same token and user id |
| `Sessions.PresenceReadsAsTokenlessSession` | handlers/handlers_auth.go:113-118 | a presence record decodes as a session record with an empty token |
| `Sessions.PresenceRoundTrip` | handlers/handlers_auth.go:113-118 | a presence record read back by the listing (`DecodeObject`, Unmarshal into a map) has exactly its username and userId |
| `Auth.PresenceKey` | handlers/handlers_auth.go:121 | the presence key has the `onlineUser:` prefix, and stripping it gives back the session id |
| `Auth.UuidIsNotPresenceKey` | handlers/handlers_auth.go:89 | a session id, a UUID, never carries the presence prefix |
| `Auth.PresenceKeyIsNotUuid` | handlers/handlers_auth.go:121 | a presence key is never a session id |
| `Auth.PresenceKeyInjective` | handlers/handlers_auth.go:163 | a presence key is determined by its session id |
| `Auth.SessionCookie` | handlers/handlers_auth.go:131 | the `session_id` cookie carries the session id, path "/", HttpOnly, not Secure, and a max-age of the TTL in whole seconds, rounded down |
| `Auth.CheckCredentials` | handlers/handlers_auth.go:46-68 | the first failing check decides: validation messages, then unknown email, then plaintext password mismatch; otherwise the user found |
| `Auth.IssueEffect` | handlers/handlers_auth.go:70-129 | the specification of steps 4 to 6: sign the claims, then SET the session key, then SET the presence key, stopping at the first failure |
| `Auth.Issue` | handlers/handlers_auth.go:70-129 | answers and writes as `IssueEffect` |
| `Auth.SignInEffect` | handlers/handlers_auth.go:35-139 | the specification of the HTTP sign-in: each failure's status and message, and on success the login body and the session cookie |
| `Auth.SignIn` | handlers/handlers_auth.go:35-139 | answers and writes as `SignInEffect`; the new keyspace is the old one with those writes applied |
| `Auth.Join` | handlers/handlers_auth.go:337 | `strings.Join` of no, one and two messages |
| `Auth.SignInKafkaEffect` | handlers/handlers_auth.go:322-432 | the specification of the Kafka sign-in: the same steps with the Kafka texts, and the session id in the success payload |
| `Auth.SignInKafka` | handlers/handlers_auth.go:322-432 | answers and writes as `SignInKafkaEffect` |
| `Auth.LogoutEffect` | handlers/handlers_auth.go:141-175 | the specification of logout: 401 without a cookie, DEL the session key, clear the cookie (`CLEARED_COOKIE`, max-age -1), DEL the presence key |
| `Auth.Logout` | handlers/handlers_auth.go:141-175 | answers and writes as `LogoutEffect` |
| `Auth.AuthMiddleware` | handlers/handlers_auth.go:177-220 | every rejection is 401, a failed GET included; a pass implies a cookie, a GET that reached the server, a live record that decodes and a token that verifies, and hands on the record's userId |
| `Auth.Collect` | handlers/handlers_auth.go:264-280 | the collected list is never longer than the replies |
| `Auth.CollectFailureSticks` | handlers/handlers_auth.go:270-277 | once one value fails to decode, the whole collection fails |
| `Auth.CollectAllHits` | handlers/handlers_auth.go:264-280 | when every GET hit, collection succeeds iff every value is a JSON object or null, and then it holds each value's decoding in reply order |
| `Auth.OnlineUsersResponse` | handlers/handlers_auth.go:238-287 | the specification of the listing once the keys are known: nil list for no keys, 500 on a pipeline error or a miss, 500 on an undecodable value, otherwise 200 with the collected entries |
| `Auth.FetchOnlineUsers` | handlers/handlers_auth.go:228-287 | a KEYS failure answers 500; otherwise the keys are a listing of the live presence keys and the answer is `OnlineUsersResponse` of them |
| `Lifecycle.SignInRejections` | handlers/handlers_auth.go:38-68 | a binding error (400), a validation failure (400 with the messages), an unknown email (500 "No user found") or a wrong password (401) writes nothing and sets no cookie |
| `Lifecycle.SignInWriteOrder` | handlers/handlers_auth.go:89-131 | the writes are a prefix of "session key, then presence key" after a verified password and a signed token; the cookie is set and 200 sent iff both writes took effect |
| `Lifecycle.PresenceShadowsSession` | handlers/handlers_auth.go:105-129 | the invariant: every presence key names a UUID session key that exists and expires no earlier |
| `Lifecycle.SignInSucceedsIff` | handlers/handlers_auth.go:35-138 | a sign-in answers 200 iff the body binds and validates, the user exists, the password matches, the token is signed and both SETs reach the server |
| `Lifecycle.SignInSuccess` | handlers/handlers_auth.go:70-138 | after a successful sign-in, exactly the two SETs were issued; the session key holds {token, userId}, the presence key holds {username, userId}, both expire at now + 60 min, the cookie is the session cookie for the TTL left when it is set, and the body carries the token, the expiry and the userId |
| `Lifecycle.SignInSetsCookie` | handlers/handlers_auth.go:131 | on success the cookie is `session_id` = the session id (never the token), HttpOnly, with max-age the TTL left at the later clock reading in whole seconds: 3599 when that reading is within a second of the expiry being fixed |
| `Lifecycle.IssueSucceeds` | handlers/handlers_auth.go:70-129 | issuing succeeds iff signing and both SETs succeed, and then the two keys hold exactly the two records |
| `Lifecycle.CookieMaxAge` | handlers/handlers_auth.go:131 | `int(time.Until(exp).Seconds())` lies within a second below the TTL left, and is 3599 less than a second after the expiry was fixed |
| `Lifecycle.PresenceFailureKeepsSession` | handlers/handlers_auth.go:123-129 | when the presence SET fails, the session key stays written (no rollback), the answer is 500 with the client's error appended, and no cookie is set |
| `Lifecycle.KafkaTwinAgrees` | handlers/handlers_auth.go:322-432 | the Kafka sign-in issues the same writes with the same status as the HTTP one, and on success reports the session id in its payload |
| `Lifecycle.SignInKeepsShadowing` | handlers/handlers_auth.go:105-129 | with a fresh session id, every sign-in path keeps every presence key shadowed by a session key that lives at least as long |
| `Lifecycle.GateAcceptsNewSession` | handlers/handlers_auth.go:177-220 | at any instant before its expiry second, when its GET reaches the server, a new session passes the gate with the signed-in user's id |
| `Lifecycle.LogoutWithoutCookie` | handlers/handlers_auth.go:143-150 | the handler, called without a cookie, answers 401 and writes nothing |
| `Lifecycle.LogoutRemovesBothKeys` | handlers/handlers_auth.go:152-174 | a logout that reaches the server removes exactly the session key and its presence key, and clears the cookie with max-age -1 |
| `Lifecycle.LogoutIsIdempotent` | handlers/handlers_auth.go:152-174 | run a second time with the same cookie, the handler changes nothing and still succeeds (in the program the gate answers such a request first) |
| `Lifecycle.LogoutKeepsShadowing` | handlers/handlers_auth.go:152-174 | a complete logout keeps every presence key shadowed |
| `Lifecycle.LogoutPartialFailureOrphansPresence` | handlers/handlers_auth.go:152-170 | for every store holding the presence key, a logout whose second DEL fails removes the session key, leaves the presence key as it was, breaks the invariant, and answers 500 with the cleared cookie |
| `Lifecycle.GateDecisionChain` | handlers/handlers_auth.go:179-218 | the gate stops at the first failing step (cookie, GET miss or error, decode, token) with that step's message, and otherwise passes the record's userId |
| `Lifecycle.GateWithoutCookieIgnoresStore` | handlers/handlers_auth.go:179-185 | without a cookie the decision is the same for every store, clock and network state |
| `Lifecycle.GateRejectsMissingSession` | handlers/handlers_auth.go:187-193 | an absent or expired session id is rejected with "Invalid or expired session" |
| `Lifecycle.GateRejectsAfterLogout` | handlers/handlers_auth.go:152-193 | after a complete logout the old cookie is rejected |
| `Lifecycle.GateUserIdComesFromRecord` | handlers/handlers_auth.go:205-217 | the decision depends on the verifier only through accept or reject, so the userId comes from the record, not the token |
| `Lifecycle.PresenceKeyAsCookie` | handlers/handlers_auth.go:187-215 | a presence key presented as the cookie passes iff the verifier accepts the empty token |
| `Lifecycle.ListingOfNoKeys` | handlers/handlers_auth.go:238-244 | no keys: 200, "No online users found", a nil list |
| `Lifecycle.ListingBounded` | handlers/handlers_auth.go:261-285 | the listing never has more entries than there are keys |
| `Lifecycle.ListingFailsOnExpiredKey` | handlers/handlers_auth.go:252-258 | a key that is gone by the time of the pipeline makes the answer 500 with redis.Nil |
| `Lifecycle.ListingFailsOnUndecodable` | handlers/handlers_auth.go:270-277 | one value that is neither a JSON object nor null makes the answer 500 |
| `Lifecycle.ListingComplete` | handlers/handlers_auth.go:228-287 | with a consistent keyspace whose presence values are objects or null, the listing holds one entry per live presence key, in KEYS order: that key's members, or a nil entry for null |
| `Lifecycle.SignInAddsOnePresence` | handlers/handlers_auth.go:121-123 | a successful sign-in adds exactly its own presence key to the live presence keys while the session lives |
| `Lifecycle.TwoSetsAddOnePresence` | handlers/handlers_auth.go:105-123 | writing a session key and a fresh live presence key grows the set of live presence keys by that one key |
| `Lifecycle.LogoutRemovesOnePresence` | handlers/handlers_auth.go:163-164 | a complete logout removes exactly its own presence key from the live presence keys |

## Left out

- TLS, HTTP, gin binding and JSON text are not modelled. A request is the bound
  `UserToAuth` or the binding error text. A stored value is a JSON object of string
  members, `null`, or other text.
- Sessions.DecodeSession: JSON objects with a member that is not a string are not
  modelled. `encoding/json` ignores such members when they are not `token` or `userId`.
- Sessions.DecodeObject: JSON objects with a member that is not a string are not
  modelled. `encoding/json` decodes them into the listing's map all the same.
- Lifecycle.ListingFailsOnUndecodable: its `OtherText` hypothesis covers malformed text
  and JSON values other than objects and null. It does not cover objects with
  non-string members, which the model cannot express and the program would list.
- JSON member names are matched exactly. `encoding/json`'s case-insensitive
  matching is not modelled.
- The error text that `encoding/json` appends after "failed to fetch unmarshal the
  data got from redis" is not modelled.
- HS256 signing, parsing and `Valid` are an opaque `TokenCodec`. RoundTrips is the
  only property the lemmas assume of it.
- The clock and `uuid.New()` are parameters.
  - The source reads the clock four times in a sign-in. The model uses two readings:
    one fixes the expiry and both TTLs, the other the cookie's max-age.
  - `PX` rounds the TTL to milliseconds; the model keeps nanoseconds.
  - The listing takes two instants, one for `KEYS` and one for `EXEC`.
- Lifecycle.SignInKeepsShadowing: its exact `<=` between the two expiries rests on both
  SETs sharing one instant and nanosecond TTLs. In the program each TTL comes from its
  own clock reading (handlers/handlers_auth.go:105 and 123) and `PX` cuts it to whole
  milliseconds, so the presence key can outlive its session key by a millisecond or
  more, depending on how long each SET takes to reach the server.
- Redis.Client.Set: requires a positive TTL. The handlers always pass about
  60 minutes, so go-redis's handling of a zero or negative TTL is not modelled.
- Only the database's "no rows" outcome is modelled, as a user map indexed by
  email. In the HTTP sign-in every other database error ends the same way, in 500
  "No user found" (handlers/handlers_auth.go:55-60).
- Auth.SignInKafkaEffect: the Kafka sign-in appends the database error's own text to
  "user not found" (handlers/handlers_auth.go:343-347). Its text is modelled only for
  `sql.ErrNoRows`; for any other database error the model's text is not the program's.
- The `json.Marshal` failures of handlers/handlers_auth.go:96-103 and 385-392
  cannot happen for maps of strings, so they are not modelled.
- A command that takes effect but whose reply is lost counts as a failed command
  that changed nothing.
- The UUID forms that `uuid.Parse` accepts other than the canonical 36-character
  one are not modelled, and neither is the cookie's URL unescaping.
- Auth.Logout: its keyspace equation passes the instant 0 to `ApplyAll`. `DEL`
  ignores the clock, so the instant changes nothing.
- HandlerAuthRoute, HandlerPasswordReset and the Pusher, SendGrid, Kafka-consumer,
  user, readiness, config and main files are outside this model.
- Concurrency between requests is not modelled. Expiry is a comparison with the
  instant a command runs.

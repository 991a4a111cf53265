/** The session handlers of handlers/handlers_auth.go: sign-in (HTTP and Kafka),
    logout, the authorization gate and the online-users listing.

    Each handler that writes to the store is a method proved against an "effect"
    function: the writes it issues, in order, and the response it gives. The lemmas
    about the store state are stated on those functions. */
module Auth {
  import opened Wrappers
  import opened Models
  import opened Validation
  import opened Redis
  import opened Sessions

  /** The namespace of presence keys. */
  const PRESENCE_PREFIX := "onlineUser:"
  const COOKIE_NAME := "session_id"

  /** The text of sql.ErrNoRows, which the user lookup returns for an unknown email. */
  const NO_ROWS := "sql: no rows in result set"

  function PresenceKey(sessionId: string): (k: string)
    ensures IsPresenceKey(k) && SessionKeyOf(k) == sessionId
  {
    PRESENCE_PREFIX + sessionId
  }

  predicate IsPresenceKey(k: string)
  {
    PRESENCE_PREFIX <= k
  }

  function SessionKeyOf(k: string): string
    requires IsPresenceKey(k)
  {
    k[|PRESENCE_PREFIX|..]
  }

  /** A session identifier is never itself a presence key. */
  lemma UuidIsNotPresenceKey(s: string)
    requires IsUuidText(s)
    ensures !IsPresenceKey(s)
  {
    assert IsHexDigit(s[0]);
  }

  /** A presence key is never a session identifier. */
  lemma PresenceKeyIsNotUuid(sessionId: string)
    ensures !IsUuidText(PresenceKey(sessionId))
  {
    assert PresenceKey(sessionId)[0] == 'o';
  }

  lemma PresenceKeyInjective(k: string, sessionId: string)
    requires IsPresenceKey(k) && SessionKeyOf(k) == sessionId
    ensures k == PresenceKey(sessionId)
  {
    assert k == k[..|PRESENCE_PREFIX|] + k[|PRESENCE_PREFIX|..];
  }

  // ---------------------------------------------------------------------------
  // Responses

  datatype Cookie = Cookie(name: string, value: string, maxAge: int, path: string, domain: string,
                           secure: bool, httpOnly: bool)

  /** The JSON bodies the handlers send. */
  datatype Body =
    | ErrorText(error: string)
    | ErrorList(errors: seq<string>)
    | Login(message: string, expires: int, token: string, userId: Uuid)
    | OnlineUsers(message: string, onlineUsers: Option<seq<Decoded>>)

  /** An HTTP response: status, body and the cookie set on it, if any. */
  datatype Response = Response(status: int, body: Body, cookie: Option<Cookie>)

  /** The payload of RespondToKafkaConsumerMessage. */
  datatype KafkaMessage =
    | KafkaError(error: string)
    | KafkaLogin(message: string, expires: int, token: string, userId: Uuid, sessionId: string)

  datatype KafkaReply = KafkaReply(status: int, message: KafkaMessage)

  /** What a handler run does to the store, in order, and what it answers. */
  datatype Effect<R> = Effect(writes: seq<Write>, result: R)

  /** The cookie set on a successful sign-in (path "/", domain "localhost", not Secure, HttpOnly):
      it carries the session id, never the token, and lives for the remaining TTL in whole seconds. */
  function SessionCookie(sessionId: string, ttl: int): (c: Cookie)
    ensures c.name == COOKIE_NAME && c.value == sessionId && c.path == "/" && c.httpOnly && !c.secure
    ensures ttl >= 0 ==> 0 <= c.maxAge * SECOND <= ttl < (c.maxAge + 1) * SECOND
  {
    Cookie(COOKIE_NAME, sessionId, WholeSeconds(ttl), "/", "localhost", false, true)
  }

  /** The cookie that logout sets: empty value, max-age -1. */
  const CLEARED_COOKIE := Cookie(COOKIE_NAME, "", -1, "/", "", false, true)

  // ---------------------------------------------------------------------------
  // Sign-in, steps 1 to 3: validate, look up, compare

  datatype Credentials = Invalid(errors: seq<string>) | NoSuchUser | WrongPassword | Verified(user: User)

  /** The checks before anything is written: validation, then the lookup by email,
      then a plaintext comparison of the passwords. The first failing check decides. */
  function CheckCredentials(req: UserToAuth, users: map<string, User>): (c: Credentials)
    ensures c.Invalid? <==> ValidateUserToAuth(req) != []
    ensures c.Invalid? ==> c.errors == ValidateUserToAuth(req) && 1 <= |c.errors| <= 2
    ensures c.NoSuchUser? <==> ValidateUserToAuth(req) == [] && req.email !in users
    ensures c.Verified? <==> ValidateUserToAuth(req) == [] && req.email in users && users[req.email].password == req.password
    ensures c.Verified? ==> c.user == users[req.email]
  {
    var errors := ValidateUserToAuth(req);
    if |errors| > 0 then Invalid(errors)
    else if req.email !in users then NoSuchUser
    else if users[req.email].password != req.password then WrongPassword
    else Verified(users[req.email])
  }

  // ---------------------------------------------------------------------------
  // Sign-in, steps 4 to 6: mint the token, write the session key, write the presence key

  datatype Issuance =
    | Issued(token: string, expires: int)
    | SignFailed(reason: string)
    | SessionWriteFailed(reason: string)
    | PresenceWriteFailed(reason: string)

  /** Which of the two SET commands of a sign-in reach the server. */
  datatype SignInLinks = SignInLinks(sessionSet: Link, presenceSet: Link)

  function SessionWrite(sessionId: string, token: string, user: User): Write
  {
    SetKey(sessionId, EncodeSession(SessionData(token, user.id)), SESSION_LIFETIME)
  }

  function PresenceWrite(sessionId: string, user: User): Write
  {
    SetKey(PresenceKey(sessionId), EncodePresence(user.name, user.id), SESSION_LIFETIME)
  }

  function IssueEffect(user: User, email: string, sessionId: string, now: int, codec: TokenCodec,
                       links: SignInLinks): Effect<Issuance>
  {
    var expiration := now + SESSION_LIFETIME;
    match codec.sign(Claims(email, user.id, UnixSeconds(expiration)))
    case Failure(e) => Effect([], SignFailed(e))
    case Success(token) =>
      if links.sessionSet.Down? then Effect([], SessionWriteFailed(links.sessionSet.reason))
      else if links.presenceSet.Down? then
        Effect([SessionWrite(sessionId, token, user)], PresenceWriteFailed(links.presenceSet.reason))
      else Effect([SessionWrite(sessionId, token, user), PresenceWrite(sessionId, user)], Issued(token, expiration))
  }

  /** The part both sign-in handlers share, with the store writes in the source's order. */
  method Issue(store: Client, user: User, email: string, sessionId: string, now: int, codec: TokenCodec,
               links: SignInLinks) returns (r: Issuance)
    modifies store
    ensures var e := IssueEffect(user, email, sessionId, now, codec, links);
            && r == e.result
            && store.writes == old(store.writes) + e.writes
            && store.keyspace == ApplyAll(old(store.keyspace), e.writes, now)
  {
    var expiration := now + SESSION_LIFETIME;
    var claims := Claims(email, user.id, UnixSeconds(expiration));
    var signed := codec.sign(claims);
    if signed.Failure? {
      return SignFailed(signed.error);
    }
    var token := signed.value;
    var ttl := expiration - now;
    var sessionData := EncodeSession(SessionData(token, user.id));
    ghost var ks0 := store.keyspace;
    var err := store.Set(sessionId, sessionData, ttl, now, links.sessionSet);
    if err.Some? {
      return SessionWriteFailed(err.value);
    }
    ghost var ks1 := store.keyspace;
    var onlineUserData := EncodePresence(user.name, user.id);
    var onlineKey := PRESENCE_PREFIX + sessionId;
    err := store.Set(onlineKey, onlineUserData, ttl, now, links.presenceSet);
    if err.Some? {
      assert ApplyAll(ks0, [SessionWrite(sessionId, token, user)], now) == ks1;
      return PresenceWriteFailed(err.value);
    }
    assert ApplyAll(ks1, [PresenceWrite(sessionId, user)], now) == store.keyspace;
    assert [SessionWrite(sessionId, token, user), PresenceWrite(sessionId, user)][1..] == [PresenceWrite(sessionId, user)];
    return Issued(token, expiration);
  }

  // ---------------------------------------------------------------------------
  // SignInHandler

  /** `now` is the clock reading that fixes the expiry; `cookieNow` the later one from which
      the cookie's max-age is computed. */
  function SignInEffect(request: Result<UserToAuth>, users: map<string, User>, sessionId: string, now: int,
                        cookieNow: int, codec: TokenCodec, links: SignInLinks): Effect<Response>
  {
    match request
    case Failure(e) => Effect([], Response(400, ErrorText(e), None))
    case Success(req) =>
      match CheckCredentials(req, users)
      case Invalid(errors) => Effect([], Response(400, ErrorList(errors), None))
      case NoSuchUser => Effect([], Response(500, ErrorText("No user found"), None))
      case WrongPassword => Effect([], Response(401, ErrorText("password is invalid"), None))
      case Verified(user) =>
        var i := IssueEffect(user, req.email, sessionId, now, codec, links);
        Effect(i.writes,
          match i.result
          case SignFailed(e) => Response(500, ErrorText(e), None)
          case SessionWriteFailed(_) => Response(500, ErrorText("failed to save the session data to the redis"), None)
          case PresenceWriteFailed(e) => Response(500, ErrorText("failed to mark user as online" + e), None)
          case Issued(token, expires) =>
            Response(200, Login("Login successful", expires, token, user.id),
                     Some(SessionCookie(sessionId, expires - cookieNow))))
  }

  /** SignInHandler. `request` is the bound body or the binding error; `sessionId` is the
      fresh `uuid.New()`; `now` is the clock when the expiry is fixed and `cookieNow` when
      the cookie is set. */
  method SignIn(store: Client, request: Result<UserToAuth>, users: map<string, User>, sessionId: Uuid, now: int,
                cookieNow: int, codec: TokenCodec, links: SignInLinks) returns (resp: Response)
    modifies store
    ensures var e := SignInEffect(request, users, sessionId, now, cookieNow, codec, links);
            && resp == e.result
            && store.writes == old(store.writes) + e.writes
            && store.keyspace == ApplyAll(old(store.keyspace), e.writes, now)
  {
    if request.Failure? {
      return Response(400, ErrorText(request.error), None);
    }
    var req := request.value;
    var checked := CheckCredentials(req, users);
    match checked
    case Invalid(errors) => return Response(400, ErrorList(errors), None);
    case NoSuchUser => return Response(500, ErrorText("No user found"), None);
    case WrongPassword => return Response(401, ErrorText("password is invalid"), None);
    case Verified(user) =>
      var issued := Issue(store, user, req.email, sessionId, now, codec, links);
      match issued
      case SignFailed(e) => resp := Response(500, ErrorText(e), None);
      case SessionWriteFailed(_) => resp := Response(500, ErrorText("failed to save the session data to the redis"), None);
      case PresenceWriteFailed(e) => resp := Response(500, ErrorText("failed to mark user as online" + e), None);
      case Issued(token, expires) =>
        resp := Response(200, Login("Login successful", expires, token, user.id),
                         Some(SessionCookie(sessionId, expires - cookieNow)));
  }

  // ---------------------------------------------------------------------------
  // SignInHandlerKafka

  /** strings.Join(parts, sep). */
  function Join(parts: seq<string>, sep: string): (r: string)
    ensures parts == [] ==> r == ""
    ensures |parts| == 1 ==> r == parts[0]
    ensures |parts| == 2 ==> r == parts[0] + sep + parts[1]
  {
    if parts == [] then ""
    else if |parts| == 1 then parts[0]
    else parts[0] + sep + Join(parts[1..], sep)
  }

  function SignInKafkaEffect(request: Result<UserToAuth>, users: map<string, User>, sessionId: string, now: int,
                             codec: TokenCodec, links: SignInLinks): Effect<KafkaReply>
  {
    match request
    case Failure(e) => Effect([], KafkaReply(400, KafkaError(e)))
    case Success(req) =>
      match CheckCredentials(req, users)
      case Invalid(errors) => Effect([], KafkaReply(400, KafkaError(Join(errors, ", "))))
      case NoSuchUser => Effect([], KafkaReply(500, KafkaError("user not found" + NO_ROWS)))
      case WrongPassword => Effect([], KafkaReply(401, KafkaError("passwords don't match")))
      case Verified(user) =>
        var i := IssueEffect(user, req.email, sessionId, now, codec, links);
        Effect(i.writes,
          match i.result
          case SignFailed(e) => KafkaReply(500, KafkaError("failed to create token" + e))
          case SessionWriteFailed(e) => KafkaReply(500, KafkaError("failed to save session data to redis" + e))
          case PresenceWriteFailed(e) => KafkaReply(500, KafkaError("failed to mark user online" + e))
          case Issued(token, expires) =>
            KafkaReply(200, KafkaLogin("Login successful", expires, token, user.id, sessionId)))
  }

  /** SignInHandlerKafka: the same flow, answered as a message instead of an HTTP response. */
  method SignInKafka(store: Client, data: Result<UserToAuth>, users: map<string, User>, sessionId: Uuid, now: int,
                     codec: TokenCodec, links: SignInLinks) returns (reply: KafkaReply)
    modifies store
    ensures var e := SignInKafkaEffect(data, users, sessionId, now, codec, links);
            && reply == e.result
            && store.writes == old(store.writes) + e.writes
            && store.keyspace == ApplyAll(old(store.keyspace), e.writes, now)
  {
    if data.Failure? {
      return KafkaReply(400, KafkaError(data.error));
    }
    var req := data.value;
    var checked := CheckCredentials(req, users);
    match checked
    case Invalid(errors) => return KafkaReply(400, KafkaError(Join(errors, ", ")));
    case NoSuchUser => return KafkaReply(500, KafkaError("user not found" + NO_ROWS));
    case WrongPassword => return KafkaReply(401, KafkaError("passwords don't match"));
    case Verified(user) =>
      var issued := Issue(store, user, req.email, sessionId, now, codec, links);
      match issued
      case SignFailed(e) => reply := KafkaReply(500, KafkaError("failed to create token" + e));
      case SessionWriteFailed(e) => reply := KafkaReply(500, KafkaError("failed to save session data to redis" + e));
      case PresenceWriteFailed(e) => reply := KafkaReply(500, KafkaError("failed to mark user online" + e));
      case Issued(token, expires) =>
        reply := KafkaReply(200, KafkaLogin("Login successful", expires, token, user.id, sessionId));
  }

  // ---------------------------------------------------------------------------
  // LogoutHandler

  /** Which of the two DEL commands of a logout reach the server. */
  datatype LogoutLinks = LogoutLinks(sessionDel: Link, presenceDel: Link)

  function LogoutEffect(cookie: Option<string>, links: LogoutLinks): Effect<Response>
  {
    match cookie
    case None => Effect([], Response(401, ErrorText("Unauthorized request"), None))
    case Some(sessionId) =>
      if links.sessionDel.Down? then Effect([], Response(401, ErrorText("failed to end session"), None))
      else if links.presenceDel.Down? then
        Effect([DelKey(sessionId)],
               Response(500, ErrorText("failed to remove online user from redis" + links.presenceDel.reason),
                        Some(CLEARED_COOKIE)))
      else Effect([DelKey(sessionId), DelKey(PresenceKey(sessionId))],
                  Response(200, ErrorText("Logged out successfully"), Some(CLEARED_COOKIE)))
  }

  /** LogoutHandler. The cleared cookie is set before the second DEL, so it goes out
      with the 500 answer too. */
  method Logout(store: Client, cookie: Option<string>, links: LogoutLinks) returns (resp: Response)
    modifies store
    ensures var e := LogoutEffect(cookie, links);
            && resp == e.result
            && store.writes == old(store.writes) + e.writes
            && store.keyspace == ApplyAll(old(store.keyspace), e.writes, 0)
  {
    if cookie.None? {
      return Response(401, ErrorText("Unauthorized request"), None);
    }
    var sessionId := cookie.value;
    ghost var ks0 := store.keyspace;
    var err := store.Del(sessionId, links.sessionDel);
    if err.Some? {
      return Response(401, ErrorText("failed to end session"), None);
    }
    ghost var ks1 := store.keyspace;
    var setCookie := Some(CLEARED_COOKIE);
    var onlineKey := PRESENCE_PREFIX + sessionId;
    err := store.Del(onlineKey, links.presenceDel);
    if err.Some? {
      assert ApplyAll(ks0, [DelKey(sessionId)], 0) == ks1;
      return Response(500, ErrorText("failed to remove online user from redis" + err.value), setCookie);
    }
    assert ApplyAll(ks1, [DelKey(onlineKey)], 0) == store.keyspace;
    assert [DelKey(sessionId), DelKey(onlineKey)][1..] == [DelKey(onlineKey)];
    return Response(200, ErrorText("Logged out successfully"), setCookie);
  }

  // ---------------------------------------------------------------------------
  // AuthMiddleware

  datatype GateDecision = Abort(status: int, error: string) | Next(userId: Uuid)

  /** The gate: read the cookie, GET the session record, decode it, verify its token,
      and hand on the user id of the record. Any failure, a failed GET included, aborts
      with 401. `link` says whether the GET reaches the server. */
  function AuthMiddleware(cookie: Option<string>, ks: Keyspace, now: int, link: Link, codec: TokenCodec): (d: GateDecision)
    ensures d.Abort? ==> d.status == 401
    ensures d.Next? ==> cookie.Some? && link.Up? && Get(ks, cookie.value, now).Some?
    ensures d.Next? ==> var data := DecodeSession(Get(ks, cookie.value, now).value);
                        data.Some? && codec.verify(data.value.token, now).Success? && d.userId == data.value.userId
  {
    match cookie
    case None => Abort(401, "Unauthorized - no session")
    case Some(sessionId) =>
      if link.Down? then Abort(401, "Invalid or expired session")
      else
      match Get(ks, sessionId, now)
      case None => Abort(401, "Invalid or expired session")
      case Some(text) =>
        match DecodeSession(text)
        case None => Abort(401, "Failed to decode the session data")
        case Some(data) =>
          if codec.verify(data.token, now).Failure? then Abort(401, "Invalid token")
          else Next(data.userId)
  }

  // ---------------------------------------------------------------------------
  // HandlerFetchOnlineUsers

  const DECODE_FAILED := "failed to fetch unmarshal the data got from redis"
  const PIPE_FAILED := "failed to fetch user's data from redis pipe"
  const KEYS_FAILED := "failed to fetch the keys from redis"

  /** The second loop of the listing: misses are skipped, the first value that is neither a
      JSON object nor null aborts the listing (None), the others are kept in order. */
  function Collect(replies: seq<Option<StoredText>>): (r: Option<seq<Decoded>>)
    ensures r.Some? ==> |r.value| <= |replies|
  {
    if replies == [] then Some([])
    else
      match Collect(replies[..|replies| - 1])
      case None => None
      case Some(users) =>
        match replies[|replies| - 1]
        case None => Some(users)
        case Some(text) =>
          match DecodeObject(text)
          case None => None
          case Some(entry) => Some(users + [entry])
  }

  /** Once a prefix of the replies fails to decode, the whole listing does. */
  lemma {:induction false} CollectFailureSticks(replies: seq<Option<StoredText>>, i: nat)
    requires i <= |replies| && Collect(replies[..i]).None?
    ensures Collect(replies).None?
    decreases |replies| - i
  {
    if i < |replies| {
      assert replies[..i + 1][..i] == replies[..i];
      CollectFailureSticks(replies, i + 1);
    } else {
      assert replies[..i] == replies;
    }
  }

  /** When every GET hit, nothing is skipped: the listing holds one decoded entry per reply,
      in order, and fails exactly when some value is neither a JSON object nor null. */
  lemma {:induction false} CollectAllHits(replies: seq<Option<StoredText>>)
    requires AllHit(replies)
    ensures Collect(replies).Some? <==> forall i :: 0 <= i < |replies| ==> !replies[i].value.OtherText?
    ensures Collect(replies).Some? ==>
      |Collect(replies).value| == |replies| &&
      forall i :: 0 <= i < |replies| ==> Collect(replies).value[i] == DecodeObject(replies[i].value).value
  {
    if replies != [] {
      var init := replies[..|replies| - 1];
      assert forall i :: 0 <= i < |init| ==> init[i] == replies[i];
      CollectAllHits(init);
    }
  }

  /** The answer once the keys are known, as the source computes it. */
  function OnlineUsersResponse(ks: Keyspace, keys: seq<string>, now: int, link: Link): Response
  {
    if |keys| == 0 then Response(200, OnlineUsers("No online users found", None), None)
    else if link.Down? then Response(500, ErrorText(PIPE_FAILED + link.reason), None)
    else
      var replies := Replies(ks, keys, now);
      if !AllHit(replies) then Response(500, ErrorText(PIPE_FAILED + NIL_REPLY), None)
      else
        match Collect(replies)
        case None => Response(500, ErrorText(DECODE_FAILED), None)
        case Some(users) => Response(200, OnlineUsers("OK", Some(users)), None)
  }

  /** HandlerFetchOnlineUsers. KEYS runs at `keysNow`, the pipeline at `execNow`; `keys` is
      the order in which KEYS answered. The store is only read. */
  method FetchOnlineUsers(store: Client, keysNow: int, execNow: int, keysLink: Link, execLink: Link)
    returns (resp: Response, ghost keys: seq<string>)
    ensures keysLink.Down? ==> resp == Response(500, ErrorText(KEYS_FAILED + keysLink.reason), None)
    ensures keysLink.Up? ==> IsKeyListing(store.keyspace, PRESENCE_PREFIX, keysNow, keys)
    ensures keysLink.Up? ==> resp == OnlineUsersResponse(store.keyspace, keys, execNow, execLink)
  {
    var listed := store.Keys(PRESENCE_PREFIX, keysNow, keysLink);
    if listed.Failure? {
      keys := [];
      return Response(500, ErrorText(KEYS_FAILED + listed.error), None), keys;
    }
    keys := listed.value;
    if |listed.value| == 0 {
      return Response(200, OnlineUsers("No online users found", None), None), keys;
    }
    var cmds := new string[|listed.value|];
    for i := 0 to |listed.value|
      invariant forall j :: 0 <= j < i ==> cmds[j] == listed.value[j]
    {
      cmds[i] := listed.value[i];
    }
    assert cmds[..] == listed.value;
    var replies, err := store.Exec(cmds[..], execNow, execLink);
    if err.Some? {
      return Response(500, ErrorText(PIPE_FAILED + err.value), None), keys;
    }
    var onlineUsers: seq<Decoded> := [];
    for i := 0 to |replies|
      invariant Collect(replies[..i]) == Some(onlineUsers)
    {
      assert replies[..i + 1][..i] == replies[..i];
      if replies[i].None? {
        continue;
      }
      var userData := DecodeObject(replies[i].value);
      if userData.None? {
        CollectFailureSticks(replies, i + 1);
        return Response(500, ErrorText(DECODE_FAILED), None), keys;
      }
      onlineUsers := onlineUsers + [userData.value];
    }
    assert replies[..|replies|] == replies;
    return Response(200, OnlineUsers("OK", Some(onlineUsers)), None), keys;
  }
}

/** Properties of the session lifecycle: which writes each handler path issues and in
    which order, what the gate and the listing then see, and the invariant that every
    presence key shadows a live-as-long session key. */
module Lifecycle {
  import opened Wrappers
  import opened Models
  import opened Validation
  import opened Redis
  import opened Sessions
  import opened Auth

  /** Every presence key names a session key that exists and expires no earlier. */
  ghost predicate PresenceShadowsSession(ks: Keyspace)
  {
    forall k :: k in ks && IsPresenceKey(k) ==>
      IsUuidText(SessionKeyOf(k)) && SessionKeyOf(k) in ks && ks[k].expiresAt <= ks[SessionKeyOf(k)].expiresAt
  }

  /** The claims a sign-in at `now` signs. */
  function SignInClaims(req: UserToAuth, user: User, now: int): Claims
  {
    Claims(req.email, user.id, UnixSeconds(now + SESSION_LIFETIME))
  }

  // ---------------------------------------------------------------------------
  // Sign-in

  /** A sign-in rejected before the token is minted writes nothing and sets no cookie:
      400 for a body that does not bind or does not validate, 500 for an unknown email,
      401 for a wrong password. */
  lemma SignInRejections(request: Result<UserToAuth>, users: map<string, User>, sessionId: string, now: int, cookieNow: int,
                         codec: TokenCodec, links: SignInLinks)
    ensures var e := SignInEffect(request, users, sessionId, now, cookieNow, codec, links);
      && (request.Failure? ==> e.writes == [] && e.result == Response(400, ErrorText(request.error), None))
      && (request.Success? && ValidateUserToAuth(request.value) != [] ==>
            e.writes == [] && e.result == Response(400, ErrorList(ValidateUserToAuth(request.value)), None))
      && (request.Success? && ValidateUserToAuth(request.value) == [] && request.value.email !in users ==>
            e.writes == [] && e.result == Response(500, ErrorText("No user found"), None))
      && (request.Success? && ValidateUserToAuth(request.value) == [] && request.value.email in users &&
          users[request.value.email].password != request.value.password ==>
            e.writes == [] && e.result == Response(401, ErrorText("password is invalid"), None))
  {
  }

  /** Whatever happens, the writes of a sign-in are a prefix of "session key, then
      presence key", both with the 60-minute TTL, and the cookie is set exactly when both
      writes took effect. */
  lemma {:induction false} SignInWriteOrder(request: Result<UserToAuth>, users: map<string, User>, sessionId: string,
                                             now: int, cookieNow: int, codec: TokenCodec, links: SignInLinks)
    ensures var e := SignInEffect(request, users, sessionId, now, cookieNow, codec, links);
      && (e.writes != [] ==>
            && request.Success?
            && CheckCredentials(request.value, users).Verified?
            && var user := users[request.value.email];
               var signed := codec.sign(SignInClaims(request.value, user, now));
               signed.Success? &&
               e.writes <= [SessionWrite(sessionId, signed.value, user), PresenceWrite(sessionId, user)])
      && (e.result.cookie.Some? <==> |e.writes| == 2)
      && (e.result.status == 200 <==> |e.writes| == 2)
  {
  }

  /** A sign-in succeeds exactly when the body binds and validates, the user exists, the
      password matches, the token is signed and both writes go through. */
  lemma SignInSucceedsIff(request: Result<UserToAuth>, users: map<string, User>, sessionId: string,
                          now: int, cookieNow: int, codec: TokenCodec, links: SignInLinks)
    ensures SignInEffect(request, users, sessionId, now, cookieNow, codec, links).result.status == 200 <==>
        && request.Success?
        && CheckCredentials(request.value, users).Verified?
        && codec.sign(SignInClaims(request.value, users[request.value.email], now)).Success?
        && links.sessionSet.Up? && links.presenceSet.Up?
  {
    match request
    case Failure(_) =>
    case Success(req) =>
      match CheckCredentials(req, users)
      case Invalid(_) =>
      case NoSuchUser =>
      case WrongPassword =>
      case Verified(user) =>
        IssueSucceeds(map[], user, req.email, sessionId, now, codec, links);
  }

  /** After a successful sign-in the session key holds {token, userId}, the presence key
      holds {username, userId}, both expire 60 minutes from now, the cookie is the session
      cookie for the TTL left when it is set (see SignInSetsCookie), and the body carries
      the token, the expiry and the user id. */
  lemma SignInSuccess(ks: Keyspace, request: Result<UserToAuth>, users: map<string, User>, sessionId: string,
                      now: int, cookieNow: int, codec: TokenCodec, links: SignInLinks)
    requires SignInEffect(request, users, sessionId, now, cookieNow, codec, links).result.status == 200
    ensures request.Success? && CheckCredentials(request.value, users).Verified?
    ensures var e := SignInEffect(request, users, sessionId, now, cookieNow, codec, links);
        var user := users[request.value.email];
        var token := codec.sign(SignInClaims(request.value, user, now)).value;
        var expires := now + SESSION_LIFETIME;
        && codec.sign(SignInClaims(request.value, user, now)).Success?
        && e.writes == [SessionWrite(sessionId, token, user), PresenceWrite(sessionId, user)]
        && ApplyAll(ks, e.writes, now) ==
             ks[sessionId := Entry(EncodeSession(SessionData(token, user.id)), expires)]
               [PresenceKey(sessionId) := Entry(EncodePresence(user.name, user.id), expires)]
        && e.result.body == Login("Login successful", expires, token, user.id)
        && e.result.cookie == Some(SessionCookie(sessionId, expires - cookieNow))
  {
    SignInSucceedsIff(request, users, sessionId, now, cookieNow, codec, links);
    var req := request.value;
    var user := users[req.email];
    assert CheckCredentials(req, users) == Verified(user);
    var i := IssueEffect(user, req.email, sessionId, now, codec, links);
    var e := SignInEffect(request, users, sessionId, now, cookieNow, codec, links);
    IssueSucceeds(ks, user, req.email, sessionId, now, codec, links);
    assert e.writes == i.writes;
    assert e.result == Response(200, Login("Login successful", i.result.expires, i.result.token, user.id),
                                Some(SessionCookie(sessionId, now + SESSION_LIFETIME - cookieNow)));
  }

  /** The cookie of a successful sign-in carries the session id, never the token, and a
      max-age of the TTL left when it is set, in whole seconds: 3599 when it is set within a
      second of the expiry being fixed. */
  lemma SignInSetsCookie(request: Result<UserToAuth>, users: map<string, User>, sessionId: string,
                         now: int, cookieNow: int, codec: TokenCodec, links: SignInLinks)
    requires SignInEffect(request, users, sessionId, now, cookieNow, codec, links).result.status == 200
    ensures var c := SignInEffect(request, users, sessionId, now, cookieNow, codec, links).result.cookie;
      && c.Some? && c.value.name == COOKIE_NAME && c.value.value == sessionId && c.value.httpOnly
      && (now <= cookieNow <= now + SESSION_LIFETIME ==>
            0 <= c.value.maxAge * SECOND <= now + SESSION_LIFETIME - cookieNow < (c.value.maxAge + 1) * SECOND)
      && (now < cookieNow <= now + SECOND ==> c.value.maxAge == 3599)
  {
    SignInSuccess(map[], request, users, sessionId, now, cookieNow, codec, links);
    CookieMaxAge(sessionId, now, cookieNow);
  }

  /** The cookie's max-age is the TTL left at the instant it is set, in whole seconds: 3599
      when it is set after the expiry was fixed but within one second of it. */
  lemma CookieMaxAge(sessionId: string, now: int, cookieNow: int)
    ensures var c := SessionCookie(sessionId, now + SESSION_LIFETIME - cookieNow);
      && (now <= cookieNow <= now + SESSION_LIFETIME ==>
            0 <= c.maxAge * SECOND <= now + SESSION_LIFETIME - cookieNow < (c.maxAge + 1) * SECOND)
      && (now < cookieNow <= now + SECOND ==> c.maxAge == 3599)
  {
    var c := SessionCookie(sessionId, now + SESSION_LIFETIME - cookieNow);
    if now < cookieNow <= now + SECOND {
      assert 3599 * SECOND <= now + SESSION_LIFETIME - cookieNow < 3600 * SECOND;
    }
  }

  /** The shared part of a sign-in succeeds exactly when signing and both writes succeed. */
  lemma IssueSucceeds(ks: Keyspace, user: User, email: string, sessionId: string, now: int, codec: TokenCodec,
                      links: SignInLinks)
    ensures var i := IssueEffect(user, email, sessionId, now, codec, links);
      i.result.Issued? <==>
        codec.sign(Claims(email, user.id, UnixSeconds(now + SESSION_LIFETIME))).Success? &&
        links.sessionSet.Up? && links.presenceSet.Up?
    ensures var i := IssueEffect(user, email, sessionId, now, codec, links);
      i.result.Issued? ==>
        var token := codec.sign(Claims(email, user.id, UnixSeconds(now + SESSION_LIFETIME))).value;
        var expires := now + SESSION_LIFETIME;
        && i.result == Issued(token, expires)
        && i.writes == [SessionWrite(sessionId, token, user), PresenceWrite(sessionId, user)]
        && ApplyAll(ks, i.writes, now) ==
             ks[sessionId := Entry(EncodeSession(SessionData(token, user.id)), expires)]
               [PresenceKey(sessionId) := Entry(EncodePresence(user.name, user.id), expires)]
  {
    var i := IssueEffect(user, email, sessionId, now, codec, links);
    if i.result.Issued? {
      ApplyTwo(ks, i.writes[0], i.writes[1], now);
    }
  }

  /** When the presence write fails, the session key already written stays: there is no
      rollback, the answer is 500 and no cookie is set. */
  lemma PresenceFailureKeepsSession(ks: Keyspace, req: UserToAuth, users: map<string, User>, sessionId: string,
                                    now: int, cookieNow: int, codec: TokenCodec, reason: string)
    requires CheckCredentials(req, users).Verified?
    requires codec.sign(SignInClaims(req, users[req.email], now)).Success?
    ensures var e := SignInEffect(Success(req), users, sessionId, now, cookieNow, codec, SignInLinks(Up, Down(reason)));
      var user := users[req.email];
      var token := codec.sign(SignInClaims(req, user, now)).value;
      && ApplyAll(ks, e.writes, now) == ks[sessionId := Entry(EncodeSession(SessionData(token, user.id)), now + SESSION_LIFETIME)]
      && e.result == Response(500, ErrorText("failed to mark user as online" + reason), None)
  {
    var e := SignInEffect(Success(req), users, sessionId, now, cookieNow, codec, SignInLinks(Up, Down(reason)));
    ApplyOne(ks, e.writes[0], now);
  }

  /** The Kafka twin issues the same writes and the same status as the HTTP handler, and
      on success reports the session id in its payload instead of a cookie. */
  lemma KafkaTwinAgrees(request: Result<UserToAuth>, users: map<string, User>, sessionId: string, now: int, cookieNow: int,
                        codec: TokenCodec, links: SignInLinks)
    ensures var h := SignInEffect(request, users, sessionId, now, cookieNow, codec, links);
            var k := SignInKafkaEffect(request, users, sessionId, now, codec, links);
      && k.writes == h.writes
      && k.result.status == h.result.status
      && (k.result.status == 200 ==>
            k.result.message == KafkaLogin("Login successful", h.result.body.expires, h.result.body.token,
                                           h.result.body.userId, sessionId))
  {
  }

  /** A sign-in with a fresh session id keeps every presence key shadowed by its session key,
      on every path, including the one where only the session key was written. */
  lemma SignInKeepsShadowing(ks: Keyspace, request: Result<UserToAuth>, users: map<string, User>, sessionId: Uuid,
                             now: int, cookieNow: int, codec: TokenCodec, links: SignInLinks)
    requires PresenceShadowsSession(ks)
    requires sessionId !in ks
    ensures PresenceShadowsSession(ApplyAll(ks, SignInEffect(request, users, sessionId, now, cookieNow, codec, links).writes, now))
  {
    var e := SignInEffect(request, users, sessionId, now, cookieNow, codec, links);
    UuidIsNotPresenceKey(sessionId);
    if |e.writes| >= 1 {
      var ks1 := Apply(ks, e.writes[0], now);
      assert e.writes[0].key == sessionId;
      assert PresenceShadowsSession(ks1) by {
        forall k | k in ks1 && IsPresenceKey(k)
          ensures IsUuidText(SessionKeyOf(k)) && SessionKeyOf(k) in ks1 && ks1[k].expiresAt <= ks1[SessionKeyOf(k)].expiresAt
        {
          assert k in ks;
          if SessionKeyOf(k) == sessionId {
            assert false;
          }
        }
      }
      if |e.writes| == 1 {
        ApplyOne(ks, e.writes[0], now);
      } else {
        ApplyTwo(ks, e.writes[0], e.writes[1], now);
        var ks2 := Apply(ks1, e.writes[1], now);
        var p := PresenceKey(sessionId);
        assert e.writes[1].key == p;
        PresenceKeyIsNotUuid(sessionId);
        forall k | k in ks2 && IsPresenceKey(k)
          ensures IsUuidText(SessionKeyOf(k)) && SessionKeyOf(k) in ks2 && ks2[k].expiresAt <= ks2[SessionKeyOf(k)].expiresAt
        {
          if k != p {
            assert k in ks1;
          }
        }
      }
    }
  }

  /** Presenting a new session at the gate, at any instant before its expiry second, passes
      and yields the user id of the signed-in user. */
  lemma GateAcceptsNewSession(ks: Keyspace, request: Result<UserToAuth>, users: map<string, User>, sessionId: string,
                              now: int, cookieNow: int, codec: TokenCodec, links: SignInLinks, later: int)
    requires RoundTrips(codec)
    requires SignInEffect(request, users, sessionId, now, cookieNow, codec, links).result.status == 200
    requires now <= later && UnixSeconds(later) < UnixSeconds(now + SESSION_LIFETIME)
    ensures AuthMiddleware(Some(sessionId),
                           ApplyAll(ks, SignInEffect(request, users, sessionId, now, cookieNow, codec, links).writes, now),
                           later, Up, codec)
            == Next(users[request.value.email].id)
  {
    SignInSuccess(ks, request, users, sessionId, now, cookieNow, codec, links);
    var user := users[request.value.email];
    var claims := SignInClaims(request.value, user, now);
    var token := codec.sign(claims).value;
    var record := EncodeSession(SessionData(token, user.id));
    var ks1 := Apply(ks, SetKey(sessionId, record, SESSION_LIFETIME), now);
    assert later < now + SESSION_LIFETIME;
    GetAfterSet(ks, sessionId, record, SESSION_LIFETIME, now, later);
    GetUnaffected(ks1, PresenceWrite(sessionId, user), sessionId, now, later);
    SessionRoundTrip(SessionData(token, user.id));
    assert codec.verify(token, later) == Success(claims);
  }

  // ---------------------------------------------------------------------------
  // Logout

  /** Without a cookie, logout answers 401 and leaves the store alone. */
  lemma LogoutWithoutCookie(links: LogoutLinks)
    ensures LogoutEffect(None, links) == Effect([], Response(401, ErrorText("Unauthorized request"), None))
  {
  }

  /** A logout whose commands reach the server removes exactly the session key and its
      presence key, changes nothing else and clears the cookie. */
  lemma LogoutRemovesBothKeys(ks: Keyspace, sessionId: string, now: int)
    ensures var e := LogoutEffect(Some(sessionId), LogoutLinks(Up, Up));
      && ApplyAll(ks, e.writes, now) == ks - {sessionId, PresenceKey(sessionId)}
      && sessionId !in ApplyAll(ks, e.writes, now) && PresenceKey(sessionId) !in ApplyAll(ks, e.writes, now)
      && e.result == Response(200, ErrorText("Logged out successfully"), Some(CLEARED_COOKIE))
  {
    var e := LogoutEffect(Some(sessionId), LogoutLinks(Up, Up));
    ApplyTwo(ks, e.writes[0], e.writes[1], now);
    assert Apply(Apply(ks, e.writes[0], now), e.writes[1], now) == ks - {sessionId, PresenceKey(sessionId)};
  }

  /** Logging out twice with the same cookie ends where logging out once does, and the
      second call succeeds, because deleting an absent key is not an error. */
  lemma LogoutIsIdempotent(ks: Keyspace, sessionId: string, now: int)
    ensures var e := LogoutEffect(Some(sessionId), LogoutLinks(Up, Up));
      && ApplyAll(ApplyAll(ks, e.writes, now), e.writes, now) == ApplyAll(ks, e.writes, now)
      && e.result.status == 200
  {
    LogoutRemovesBothKeys(ks, sessionId, now);
    LogoutRemovesBothKeys(ApplyAll(ks, LogoutEffect(Some(sessionId), LogoutLinks(Up, Up)).writes, now), sessionId, now);
  }

  /** A complete logout keeps every presence key shadowed. */
  lemma LogoutKeepsShadowing(ks: Keyspace, sessionId: string, now: int)
    requires PresenceShadowsSession(ks)
    ensures PresenceShadowsSession(ApplyAll(ks, LogoutEffect(Some(sessionId), LogoutLinks(Up, Up)).writes, now))
  {
    LogoutRemovesBothKeys(ks, sessionId, now);
    var after := ks - {sessionId, PresenceKey(sessionId)};
    PresenceKeyIsNotUuid(sessionId);
    forall k | k in after && IsPresenceKey(k)
      ensures IsUuidText(SessionKeyOf(k)) && SessionKeyOf(k) in after && after[k].expiresAt <= after[SessionKeyOf(k)].expiresAt
    {
      assert k in ks;
      if SessionKeyOf(k) == sessionId {
        PresenceKeyInjective(k, sessionId);
        assert false;
      }
    }
  }

  /** When the second DEL of a logout fails, the session key is gone and its presence key
      stays behind untouched: the shadowing invariant is broken until the presence key
      expires, and the answer is 500 with the cleared cookie. */
  lemma LogoutPartialFailureOrphansPresence(ks: Keyspace, sessionId: string, reason: string)
    requires PresenceKey(sessionId) in ks
    ensures var e := LogoutEffect(Some(sessionId), LogoutLinks(Up, Down(reason)));
      var after := ApplyAll(ks, e.writes, 0);
      && sessionId !in after
      && PresenceKey(sessionId) in after && after[PresenceKey(sessionId)] == ks[PresenceKey(sessionId)]
      && !PresenceShadowsSession(after)
      && e.result == Response(500, ErrorText("failed to remove online user from redis" + reason), Some(CLEARED_COOKIE))
  {
    var e := LogoutEffect(Some(sessionId), LogoutLinks(Up, Down(reason)));
    ApplyOne(ks, e.writes[0], 0);
    assert |PresenceKey(sessionId)| > |sessionId|;
  }

  // ---------------------------------------------------------------------------
  // The gate

  /** Without a cookie the gate rejects whatever the store holds, so it never needs it. */
  lemma GateWithoutCookieIgnoresStore(ks1: Keyspace, ks2: Keyspace, now1: int, now2: int, link1: Link, link2: Link,
                                      codec: TokenCodec)
    ensures AuthMiddleware(None, ks1, now1, link1, codec) == AuthMiddleware(None, ks2, now2, link2, codec)
                                                   == Abort(401, "Unauthorized - no session")
  {
  }

  /** The gate stops at the first failing step, with that step's message, and passes
      exactly when every step succeeds. A GET that does not reach the server is
      answered like a miss. */
  lemma GateDecisionChain(cookie: Option<string>, ks: Keyspace, now: int, link: Link, codec: TokenCodec)
    ensures cookie.None? ==> AuthMiddleware(cookie, ks, now, link, codec) == Abort(401, "Unauthorized - no session")
    ensures cookie.Some? && (link.Down? || Get(ks, cookie.value, now).None?) ==>
      AuthMiddleware(cookie, ks, now, link, codec) == Abort(401, "Invalid or expired session")
    ensures cookie.Some? && link.Up? && Get(ks, cookie.value, now).Some? && DecodeSession(Get(ks, cookie.value, now).value).None? ==>
      AuthMiddleware(cookie, ks, now, link, codec) == Abort(401, "Failed to decode the session data")
    ensures cookie.Some? && link.Up? && Get(ks, cookie.value, now).Some? && DecodeSession(Get(ks, cookie.value, now).value).Some? ==>
      var data := DecodeSession(Get(ks, cookie.value, now).value).value;
      AuthMiddleware(cookie, ks, now, link, codec) ==
        if codec.verify(data.token, now).Failure? then Abort(401, "Invalid token") else Next(data.userId)
  {
  }

  /** A session id that is absent or expired is rejected before its token is looked at. */
  lemma GateRejectsMissingSession(sessionId: string, ks: Keyspace, now: int, link: Link, codec: TokenCodec)
    requires !IsLive(ks, sessionId, now)
    ensures AuthMiddleware(Some(sessionId), ks, now, link, codec) == Abort(401, "Invalid or expired session")
  {
  }

  /** After a complete logout, the old cookie no longer passes the gate. */
  lemma GateRejectsAfterLogout(ks: Keyspace, sessionId: string, now: int, later: int, link: Link, codec: TokenCodec)
    ensures AuthMiddleware(Some(sessionId),
                           ApplyAll(ks, LogoutEffect(Some(sessionId), LogoutLinks(Up, Up)).writes, now),
                           later, link, codec)
            == Abort(401, "Invalid or expired session")
  {
    LogoutRemovesBothKeys(ks, sessionId, now);
  }

  /** The user id the gate hands on comes from the session record, not from the token's
      claims: two verifiers that accept and reject the same tokens lead to the same decision. */
  lemma GateUserIdComesFromRecord(cookie: Option<string>, ks: Keyspace, now: int, link: Link,
                                  codec1: TokenCodec, codec2: TokenCodec)
    requires forall token :: codec1.verify(token, now).Success? == codec2.verify(token, now).Success?
    ensures AuthMiddleware(cookie, ks, now, link, codec1) == AuthMiddleware(cookie, ks, now, link, codec2)
  {
  }

  /** The gate is a function of the store, so it leaves it as it is; and a presence key used
      as a cookie reads as a record with an empty token, so it passes only if the verifier
      accepts the empty token. */
  lemma PresenceKeyAsCookie(ks: Keyspace, sessionId: string, now: int, codec: TokenCodec)
    requires IsLive(ks, PresenceKey(sessionId), now)
    requires ks[PresenceKey(sessionId)].value.JsonObject?
    requires ks[PresenceKey(sessionId)].value.fields.Keys == {"username", "userId"}
    requires IsUuidText(ks[PresenceKey(sessionId)].value.fields["userId"])
    ensures AuthMiddleware(Some(PresenceKey(sessionId)), ks, now, Up, codec).Next? <==> codec.verify("", now).Success?
  {
    var fields := ks[PresenceKey(sessionId)].value.fields;
    assert "token" !in fields;
  }

  // ---------------------------------------------------------------------------
  // The listing

  /** With no matching keys the listing says so and carries a nil list. */
  lemma ListingOfNoKeys(ks: Keyspace, now: int, link: Link)
    ensures OnlineUsersResponse(ks, [], now, link) == Response(200, OnlineUsers("No online users found", None), None)
  {
  }

  /** The listing never holds more entries than there were keys. */
  lemma ListingBounded(ks: Keyspace, keys: seq<string>, now: int, link: Link)
    ensures var r := OnlineUsersResponse(ks, keys, now, link);
      r.body.OnlineUsers? && r.body.onlineUsers.Some? ==> |r.body.onlineUsers.value| <= |keys|
  {
  }

  /** A key that expires between KEYS and the pipeline makes the whole listing fail. */
  lemma ListingFailsOnExpiredKey(ks: Keyspace, keys: seq<string>, now: int, i: nat)
    requires i < |keys| && !IsLive(ks, keys[i], now)
    ensures OnlineUsersResponse(ks, keys, now, Up) == Response(500, ErrorText(PIPE_FAILED + NIL_REPLY), None)
  {
    assert Replies(ks, keys, now)[i].None?;
  }

  /** A value that is neither a JSON object nor null makes the whole listing fail with 500. */
  lemma ListingFailsOnUndecodable(ks: Keyspace, keys: seq<string>, now: int, i: nat)
    requires i < |keys| && forall j :: 0 <= j < |keys| ==> IsLive(ks, keys[j], now)
    requires keys[i] in ks && ks[keys[i]].value.OtherText?
    ensures OnlineUsersResponse(ks, keys, now, Up) == Response(500, ErrorText(DECODE_FAILED), None)
  {
    var replies := Replies(ks, keys, now);
    assert AllHit(replies);
    CollectAllHits(replies);
    assert replies[i].value.OtherText?;
  }

  /** When KEYS and the pipeline see the same keyspace and every presence value is a JSON
      object or null, the listing holds one entry per live presence key, in the order KEYS
      gave: the object's members, or a nil map for null. */
  lemma ListingComplete(ks: Keyspace, keys: seq<string>, now: int)
    requires IsKeyListing(ks, PRESENCE_PREFIX, now, keys) && |keys| > 0
    requires forall k :: k in ks && IsPresenceKey(k) ==> !ks[k].value.OtherText?
    ensures var r := OnlineUsersResponse(ks, keys, now, Up);
      && r.status == 200 && r.body.OnlineUsers? && r.body.onlineUsers.Some?
      && |r.body.onlineUsers.value| == |keys| == |LiveKeysWithPrefix(ks, PRESENCE_PREFIX, now)|
      && forall i :: 0 <= i < |keys| ==>
           && keys[i] in ks
           && (ks[keys[i]].value.JsonObject? ==> r.body.onlineUsers.value[i] == Members(ks[keys[i]].value.fields))
           && (ks[keys[i]].value.JsonNull? ==> r.body.onlineUsers.value[i] == NilMap)
  {
    ListingLength(ks, PRESENCE_PREFIX, now, keys);
    var replies := Replies(ks, keys, now);
    assert AllHit(replies);
    CollectAllHits(replies);
  }

  /** A successful sign-in adds exactly one live presence key, for as long as the session lives. */
  lemma SignInAddsOnePresence(ks: Keyspace, request: Result<UserToAuth>, users: map<string, User>, sessionId: Uuid,
                              now: int, cookieNow: int, codec: TokenCodec, links: SignInLinks, later: int)
    requires PresenceShadowsSession(ks) && sessionId !in ks
    requires SignInEffect(request, users, sessionId, now, cookieNow, codec, links).result.status == 200
    requires now <= later < now + SESSION_LIFETIME
    ensures var after := ApplyAll(ks, SignInEffect(request, users, sessionId, now, cookieNow, codec, links).writes, now);
      && LiveKeysWithPrefix(after, PRESENCE_PREFIX, later) == LiveKeysWithPrefix(ks, PRESENCE_PREFIX, later) + {PresenceKey(sessionId)}
      && |LiveKeysWithPrefix(after, PRESENCE_PREFIX, later)| == |LiveKeysWithPrefix(ks, PRESENCE_PREFIX, later)| + 1
  {
    SignInSuccess(ks, request, users, sessionId, now, cookieNow, codec, links);
    var p := PresenceKey(sessionId);
    assert p !in ks by {
      if p in ks {
        assert false;
      }
    }
    var user := users[request.value.email];
    var token := codec.sign(SignInClaims(request.value, user, now)).value;
    var expires := now + SESSION_LIFETIME;
    TwoSetsAddOnePresence(ks, sessionId, Entry(EncodeSession(SessionData(token, user.id)), expires),
                          Entry(EncodePresence(user.name, user.id), expires), later);
  }

  /** Writing a session key and a fresh, live presence key adds that one key to the listing. */
  lemma TwoSetsAddOnePresence(ks: Keyspace, sessionId: Uuid, session: Entry, presence: Entry, later: int)
    requires PresenceKey(sessionId) !in ks && later < presence.expiresAt
    ensures var after := ks[sessionId := session][PresenceKey(sessionId) := presence];
      && LiveKeysWithPrefix(after, PRESENCE_PREFIX, later) == LiveKeysWithPrefix(ks, PRESENCE_PREFIX, later) + {PresenceKey(sessionId)}
      && |LiveKeysWithPrefix(after, PRESENCE_PREFIX, later)| == |LiveKeysWithPrefix(ks, PRESENCE_PREFIX, later)| + 1
  {
    UuidIsNotPresenceKey(sessionId);
    var after := ks[sessionId := session][PresenceKey(sessionId) := presence];
    assert LiveKeysWithPrefix(after, PRESENCE_PREFIX, later) == LiveKeysWithPrefix(ks, PRESENCE_PREFIX, later) + {PresenceKey(sessionId)};
  }

  /** A complete logout removes exactly its own presence key from the listing. */
  lemma LogoutRemovesOnePresence(ks: Keyspace, sessionId: Uuid, now: int, later: int)
    ensures var after := ApplyAll(ks, LogoutEffect(Some(sessionId), LogoutLinks(Up, Up)).writes, now);
      LiveKeysWithPrefix(after, PRESENCE_PREFIX, later) == LiveKeysWithPrefix(ks, PRESENCE_PREFIX, later) - {PresenceKey(sessionId)}
  {
    LogoutRemovesBothKeys(ks, sessionId, now);
    UuidIsNotPresenceKey(sessionId);
  }
}

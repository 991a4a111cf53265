/** The records of handlers/handlers_auth.go (Claims, SessionData and the presence
    record), their JSON form in the store, and the signed-token library as an opaque
    pair of functions. */
module Sessions {
  import opened Wrappers
  import opened Models
  import opened Redis

  const SECOND: int := 1_000_000_000
  const MINUTE: int := 60 * SECOND

  /** A session lives for 60 minutes. */
  const SESSION_LIFETIME: int := 60 * MINUTE

  /** `time.Time.Unix()`: whole seconds, rounded down, also before the epoch. */
  function UnixSeconds(t: int): (s: int)
    ensures s * SECOND <= t < (s + 1) * SECOND
  {
    t / SECOND
  }

  /** `int(d.Seconds())` for a duration `d`: whole seconds, rounded toward zero. */
  function WholeSeconds(d: int): (s: int)
    ensures d >= 0 ==> 0 <= s * SECOND <= d < (s + 1) * SECOND
    ensures d < 0 ==> (s - 1) * SECOND < d <= s * SECOND <= 0
  {
    if d >= 0 then d / SECOND else -((-d) / SECOND)
  }

  /** Claims: the email, the user id and the expiry in Unix seconds. */
  datatype Claims = Claims(email: string, userId: Uuid, expiresAt: int)

  /** HS256 signing and verification with the process-wide secret. `sign` may fail with an
      error text; `verify(token, now)` is ParseWithClaims followed by the `Valid` check. */
  datatype TokenCodec = TokenCodec(sign: Claims -> Result<string>, verify: (string, int) -> Result<Claims>)

  /** The only thing assumed of the library: a token it signed verifies, with its own
      claims, at any instant before the claimed expiry second. */
  ghost predicate RoundTrips(codec: TokenCodec)
  {
    forall c: Claims, now: int ::
      codec.sign(c).Success? && UnixSeconds(now) < c.expiresAt ==>
        codec.verify(codec.sign(c).value, now) == Success(c)
  }

  /** SessionData: what the session key holds. */
  datatype SessionData = SessionData(token: string, userId: Uuid)

  /** json.Marshal of {"token": token, "userId": userId}. */
  function EncodeSession(data: SessionData): StoredText
  {
    JsonObject(map["token" := data.token, "userId" := data.userId])
  }

  /** json.Marshal of {"username": username, "userId": userId}. */
  function EncodePresence(username: string, userId: Uuid): StoredText
  {
    JsonObject(map["username" := username, "userId" := userId])
  }

  /** json.Unmarshal into SessionData: `null` leaves the zero value, members that are
      absent keep their zero value, other members are ignored, and a userId that is not a
      UUID is an error; anything else fails. */
  function DecodeSession(v: StoredText): (r: Option<SessionData>)
    ensures r.None? <==> v.OtherText? || (v.JsonObject? && "userId" in v.fields && !IsUuidText(v.fields["userId"]))
    ensures v.JsonNull? ==> r == Some(SessionData("", NIL_UUID))
    ensures r.Some? && v.JsonObject? ==>
      && r.value.token == (if "token" in v.fields then v.fields["token"] else "")
      && r.value.userId == (if "userId" in v.fields then v.fields["userId"] else NIL_UUID)
  {
    match v
    case OtherText(_) => None
    case JsonNull => Some(SessionData("", NIL_UUID))
    case JsonObject(fields) =>
      var token := if "token" in fields then fields["token"] else "";
      if "userId" !in fields then Some(SessionData(token, NIL_UUID))
      else if IsUuidText(fields["userId"]) then Some(SessionData(token, fields["userId"]))
      else None
  }

  /** A map[string]interface{} after json.Unmarshal: nil for `null`, or the object's members. */
  datatype Decoded = NilMap | Members(fields: map<string, string>)

  /** json.Unmarshal into map[string]interface{}: any JSON object, or `null`. */
  function DecodeObject(v: StoredText): Option<Decoded>
  {
    match v
    case OtherText(_) => None
    case JsonNull => Some(NilMap)
    case JsonObject(fields) => Some(Members(fields))
  }

  /** A session record reads back as itself. */
  lemma SessionRoundTrip(data: SessionData)
    ensures DecodeSession(EncodeSession(data)) == Some(data)
  {
  }

  /** A presence record also decodes as a session record, with an empty token. */
  lemma PresenceReadsAsTokenlessSession(username: string, userId: Uuid)
    ensures DecodeSession(EncodePresence(username, userId)) == Some(SessionData("", userId))
  {
  }

  /** The presence record reads back, as a generic object, with both of its members. */
  lemma PresenceRoundTrip(username: string, userId: Uuid)
    ensures DecodeObject(EncodePresence(username, userId)) == Some(Members(map["username" := username, "userId" := userId]))
  {
  }
}

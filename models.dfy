/** The records of models/user_model.go and the textual form of a UUID. */
module Models {

  predicate IsHexDigit(c: char)
  {
    ('0' <= c <= '9') || ('a' <= c <= 'f') || ('A' <= c <= 'F')
  }

  /** The 36-character form `xxxxxxxx-xxxx-xxxx-xxxx-xxxxxxxxxxxx` that
      `uuid.UUID.String()` produces and `uuid.Parse` reads back. */
  predicate IsUuidText(s: string)
  {
    && |s| == 36
    && (forall i :: 0 <= i < 36 && (i == 8 || i == 13 || i == 18 || i == 23) ==> s[i] == '-')
    && (forall i :: 0 <= i < 36 && i != 8 && i != 13 && i != 18 && i != 23 ==> IsHexDigit(s[i]))
  }

  const NIL_UUID: string := "00000000-0000-0000-0000-000000000000"

  /** A `uuid.UUID`, kept in its textual form (that is also how it is marshalled to JSON). */
  type Uuid = s: string | IsUuidText(s) witness NIL_UUID

  /** A stored user, as the user database returns it (models.User). */
  datatype User = User(id: Uuid, email: string, password: string, name: string)

  /** The sign-in request body (models.UserToAuth). */
  datatype UserToAuth = UserToAuth(email: string, password: string)
}

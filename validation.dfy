/** The request validators of utils/validation.go: pure predicates on strings. */
module Validation {
  import opened Wrappers
  import opened Models

  /** ValidationResult as built by NewValidationResult: a verdict and an optional error text. */
  datatype ValidationResult = NewValidationResult(isValid: bool, error: Option<string>)

  const EMPTY_EMAIL_MESSAGE := "empty email is not allowed"
  const INVALID_EMAIL_MESSAGE := "email is not valid"
  const SHORT_PASSWORD_MESSAGE := "min length of password must be at least 6 chars."
  const MIN_PASSWORD_BYTES := 6

  // ---------------------------------------------------------------------------
  // The email pattern ^[a-zA-Z0-9._%+-]+@[a-zA-Z0-9.-]+\.[a-zA-Z]{2,}$

  predicate IsAsciiLetter(c: char) { ('a' <= c <= 'z') || ('A' <= c <= 'Z') }

  predicate IsAsciiDigit(c: char) { '0' <= c <= '9' }

  /** The class [a-zA-Z0-9._%+-] of the local part. */
  predicate IsLocalChar(c: char)
  {
    IsAsciiLetter(c) || IsAsciiDigit(c) || c == '.' || c == '_' || c == '%' || c == '+' || c == '-'
  }

  /** The class [a-zA-Z0-9.-] of the domain. */
  predicate IsDomainChar(c: char)
  {
    IsAsciiLetter(c) || IsAsciiDigit(c) || c == '.' || c == '-'
  }

  /** [a-zA-Z0-9._%+-]+ */
  predicate IsLocalPart(s: string)
  {
    |s| > 0 && forall i :: 0 <= i < |s| ==> IsLocalChar(s[i])
  }

  /** [a-zA-Z0-9.-]+ */
  predicate IsDomainPart(s: string)
  {
    |s| > 0 && forall i :: 0 <= i < |s| ==> IsDomainChar(s[i])
  }

  /** [a-zA-Z]{2,} */
  predicate IsTopLevelPart(s: string)
  {
    |s| >= 2 && forall i :: 0 <= i < |s| ==> IsAsciiLetter(s[i])
  }

  /** The anchored pattern as a language: some split local "@" domain "." tld of the whole string. */
  ghost predicate MatchesEmailPattern(s: string)
  {
    exists at: nat, dot: nat ::
      at < dot < |s| && s[at] == '@' && s[dot] == '.' &&
      IsLocalPart(s[..at]) && IsDomainPart(s[at + 1..dot]) && IsTopLevelPart(s[dot + 1..])
  }

  /** The first position at or after `from` holding `c`. */
  function IndexOfFrom(s: string, c: char, from: nat): (r: Option<nat>)
    requires from <= |s|
    ensures r.Some? ==> from <= r.value < |s| && s[r.value] == c
    ensures r.Some? ==> forall j :: from <= j < r.value ==> s[j] != c
    ensures r.None? ==> forall j :: from <= j < |s| ==> s[j] != c
    decreases |s| - from
  {
    if from == |s| then None
    else if s[from] == c then Some(from)
    else IndexOfFrom(s, c, from + 1)
  }

  /** The last position below `upTo` holding `c`. */
  function LastIndexBelow(s: string, c: char, upTo: nat): (r: Option<nat>)
    requires upTo <= |s|
    ensures r.Some? ==> r.value < upTo && s[r.value] == c
    ensures r.Some? ==> forall j :: r.value < j < upTo ==> s[j] != c
    ensures r.None? ==> forall j :: 0 <= j < upTo ==> s[j] != c
  {
    if upTo == 0 then None
    else if s[upTo - 1] == c then Some(upTo - 1)
    else LastIndexBelow(s, c, upTo - 1)
  }

  /** A deterministic matcher for the pattern: no class but the '@' one admits '@', and the
      top-level part admits no '.', so the only possible split is at the first '@' and the last '.'. */
  predicate EmailMatches(s: string)
  {
    match IndexOfFrom(s, '@', 0)
    case None => false
    case Some(at) =>
      match LastIndexBelow(s, '.', |s|)
      case None => false
      case Some(dot) =>
        at < dot && IsLocalPart(s[..at]) && IsDomainPart(s[at + 1..dot]) && IsTopLevelPart(s[dot + 1..])
  }

  /** The matcher accepts exactly the strings the pattern describes. */
  lemma EmailMatchesIff(s: string)
    ensures EmailMatches(s) <==> MatchesEmailPattern(s)
  {
    if EmailMatches(s) {
      var at := IndexOfFrom(s, '@', 0).value;
      var dot := LastIndexBelow(s, '.', |s|).value;
      assert s[at] == '@' && s[dot] == '.';
    }
    if MatchesEmailPattern(s) {
      var at: nat, dot: nat :|
        at < dot < |s| && s[at] == '@' && s[dot] == '.' &&
        IsLocalPart(s[..at]) && IsDomainPart(s[at + 1..dot]) && IsTopLevelPart(s[dot + 1..]);
      SplitIsFound(s, at, dot);
    }
  }

  /** Any split the pattern admits is the one at the first '@' and the last '.'. */
  lemma SplitIsFound(s: string, at: nat, dot: nat)
    requires at < dot < |s| && s[at] == '@' && s[dot] == '.'
    requires IsLocalPart(s[..at]) && IsTopLevelPart(s[dot + 1..])
    ensures IndexOfFrom(s, '@', 0) == Some(at)
    ensures LastIndexBelow(s, '.', |s|) == Some(dot)
  {
    forall j | 0 <= j < at ensures s[j] != '@' {
      assert s[j] == s[..at][j];
    }
    forall j | dot < j < |s| ensures s[j] != '.' {
      assert s[j] == s[dot + 1..][j - dot - 1];
    }
  }

  // ---------------------------------------------------------------------------
  // Go's len(string): the number of UTF-8 bytes

  /** The number of bytes UTF-8 uses for one Unicode scalar value. */
  function Utf8Width(c: char): (n: nat)
    ensures 1 <= n <= 4
    ensures n == 1 <==> (c as int) < 0x80
  {
    if (c as int) < 0x80 then 1
    else if (c as int) < 0x800 then 2
    else if (c as int) < 0x10000 then 3
    else 4
  }

  /** `len(s)` in Go for a string holding the UTF-8 encoding of `s`. */
  function Utf8Length(s: string): nat
  {
    if s == [] then 0 else Utf8Width(s[0]) + Utf8Length(s[1..])
  }

  predicate IsAscii(s: string)
  {
    forall i :: 0 <= i < |s| ==> (s[i] as int) < 0x80
  }

  /** Every character takes at least one byte, and ASCII characters exactly one. */
  lemma {:induction false} Utf8LengthBounds(s: string)
    ensures |s| <= Utf8Length(s) <= 4 * |s|
    ensures Utf8Length(s) == |s| <==> IsAscii(s)
  {
    if s != [] {
      Utf8LengthBounds(s[1..]);
      if IsAscii(s[1..]) && (s[0] as int) < 0x80 {
        assert forall i :: 1 <= i < |s| ==> s[i] == s[1..][i - 1];
      }
      if IsAscii(s) {
        assert forall i :: 0 <= i < |s| - 1 ==> s[1..][i] == s[i + 1];
      }
    }
  }

  // ---------------------------------------------------------------------------
  // The validators

  /** ValidateEmail: the emptiness check comes first, then the pattern. */
  function ValidateEmail(email: string): (r: ValidationResult)
    ensures !r.isValid <==> r.error.Some?
    ensures email == "" ==> r == NewValidationResult(false, Some(EMPTY_EMAIL_MESSAGE))
    ensures email != "" ==> (r.isValid <==> MatchesEmailPattern(email))
    ensures email != "" && !r.isValid ==> r.error == Some(INVALID_EMAIL_MESSAGE)
  {
    EmailMatchesIff(email);
    if email == "" then NewValidationResult(false, Some(EMPTY_EMAIL_MESSAGE))
    else if !EmailMatches(email) then NewValidationResult(false, Some(INVALID_EMAIL_MESSAGE))
    else NewValidationResult(true, None)
  }

  /** ValidatePassword: at least six bytes. */
  function ValidatePassword(password: string): (r: ValidationResult)
    ensures !r.isValid <==> r.error.Some?
    ensures r.isValid <==> Utf8Length(password) >= MIN_PASSWORD_BYTES
    ensures !r.isValid ==> r.error == Some(SHORT_PASSWORD_MESSAGE)
  {
    if Utf8Length(password) < MIN_PASSWORD_BYTES then NewValidationResult(false, Some(SHORT_PASSWORD_MESSAGE))
    else NewValidationResult(true, None)
  }

  /** The error text of a failed check, or nothing when it passed. */
  function Messages(v: ValidationResult): seq<string>
  {
    if !v.isValid && v.error.Some? then [v.error.value] else []
  }

  /** ValidateUserToAuth: the email message, if any, then the password message, if any. */
  function ValidateUserToAuth(req: UserToAuth): (errors: seq<string>)
    ensures |errors| <= 2
    ensures errors == [] <==> ValidateEmail(req.email).isValid && ValidatePassword(req.password).isValid
    ensures !ValidateEmail(req.email).isValid ==> errors[0] == ValidateEmail(req.email).error.value
    ensures !ValidatePassword(req.password).isValid ==> errors[|errors| - 1] == SHORT_PASSWORD_MESSAGE
    ensures |errors| == 2 <==> !ValidateEmail(req.email).isValid && !ValidatePassword(req.password).isValid
  {
    Messages(ValidateEmail(req.email)) + Messages(ValidatePassword(req.password))
  }

  // ---------------------------------------------------------------------------
  // Boundary cases

  /** Six ASCII characters pass the password check; five fail it with the length message. */
  lemma PasswordBoundary()
    ensures ValidatePassword("secret").isValid
    ensures ValidatePassword("secre") == NewValidationResult(false, Some(SHORT_PASSWORD_MESSAGE))
  {
    Utf8LengthBounds("secret");
    Utf8LengthBounds("secre");
  }

  /** The length is counted in bytes: three two-byte characters are long enough. */
  lemma PasswordCountsBytes()
    ensures ValidatePassword("ééé").isValid
    ensures !ValidatePassword("éé").isValid
  {
  }

  /** The example credentials pass both validators. */
  lemma ExampleCredentialsAreValid()
    ensures ValidateUserToAuth(UserToAuth("user@example.com", "secret1")) == []
  {
    var s := "user@example.com";
    assert MatchesEmailPattern(s) by {
      assert 4 < 12 < |s| && s[4] == '@' && s[12] == '.';
      assert IsLocalPart(s[..4]) && IsDomainPart(s[5..12]) && IsTopLevelPart(s[13..]);
    }
    Utf8LengthBounds("secret1");
  }

  /** An empty email gets the emptiness message, not the pattern message, and both
      messages appear, email first, when the password is short as well. */
  lemma EmptyEmailAndShortPassword()
    ensures ValidateUserToAuth(UserToAuth("", "abc")) == [EMPTY_EMAIL_MESSAGE, SHORT_PASSWORD_MESSAGE]
  {
    Utf8LengthBounds("abc");
  }
}

/**
  The credential helpers shared by the handlers: the email and password format
  checks, the four-digit verification code, and the token middleware that
  reads the `Authorization` header and refuses a token issued before the
  account's last password change.
*/
module Credentials {
  import opened Basics
  import opened Text

  /** The `{ isValid, message }` object the validators return. */
  datatype Validation = Validation(isValid: bool, message: string)

  /** The pair `validateUserInput` returns. */
  datatype InputValidation = InputValidation(email: Validation, password: Validation)

  const EmailInvalidMessage := "Invalid email format"
  const EmailValidMessage := "Email format is valid"
  const PasswordInvalidMessage := "Password must be at least 8 characters long, contain at least 1 uppercase letter, and 1 number"
  const PasswordValidMessage := "Password is strong"

  /**
    `validateEmail`: valid exactly when the address matches
    `^[^\s@]+@[^\s@]+\.[^\s@]+$`. The domain is then compared against a list
    of common providers, but only to log a warning, so it never changes the
    answer.
  */
  function ValidateEmail(email: string): (r: Validation)
    ensures r.isValid <==> EmailPattern(email)
    ensures r.message == if r.isValid then EmailValidMessage else EmailInvalidMessage
  {
    EmailShapedIffPattern(email);
    if EmailShaped(email) then Validation(true, EmailValidMessage)
    else Validation(false, EmailInvalidMessage)
  }

  /** Any domain of the form `b.c` is accepted, common provider or not. */
  lemma AnyDomainAccepted(local: string, b: string, c: string)
    requires Plain(local) && Plain(b) && Plain(c)
    ensures ValidateEmail(local + ['@'] + (b + ['.'] + c)).isValid
  {
    PlainPartsShaped(local, b, c);
    EmailShapedIffPattern(local + ['@'] + (b + ['.'] + c));
  }

  /** An address with white space in it is refused wherever the space is. */
  lemma SpaceRefused(email: string, k: int)
    requires 0 <= k < |email| && IsSpace(email[k])
    ensures !ValidateEmail(email).isValid
  {
    EmailShapedIffPattern(email);
  }

  /**
    `validatePassword`: valid exactly when the password matches
    `^(?=.*[A-Z])(?=.*\d).{8,}$`, that is, at least eight characters, none a
    line terminator, among them an upper-case ASCII letter and a digit.
  */
  function ValidatePassword(password: string): (r: Validation)
    ensures r.isValid <==> PasswordPattern(password)
    ensures r.isValid <==> |password| >= 8 && NoLineTerminator(password)
                           && (exists k :: 0 <= k < |password| && IsUpper(password[k]))
                           && (exists k :: 0 <= k < |password| && IsDigit(password[k]))
    ensures r.message == if r.isValid then PasswordValidMessage else PasswordInvalidMessage
  {
    PasswordShapedIffPattern(password);
    if PasswordShaped(password) then Validation(true, PasswordValidMessage)
    else Validation(false, PasswordInvalidMessage)
  }

  /** `validateUserInput`: both checks, each on its own argument only. */
  function ValidateUserInput(email: string, password: string): (r: InputValidation)
    ensures r.email.isValid <==> EmailPattern(email)
    ensures r.password.isValid <==> PasswordPattern(password)
  {
    InputValidation(ValidateEmail(email), ValidatePassword(password))
  }

  /** Changing one argument never changes the other argument's verdict. */
  lemma UserInputIndependent(e1: string, p1: string, e2: string, p2: string)
    ensures ValidateUserInput(e1, p1).email == ValidateUserInput(e1, p2).email
    ensures ValidateUserInput(e1, p1).password == ValidateUserInput(e2, p1).password
  {
  }

  // ---------------------------------------------------------------------------
  // generate4DigitCode

  /**
    `n.toString().padStart(4, '0')` for the random `n` the generator draws
    from 0..9999 (the draw itself is a parameter here): four decimal digits
    that denote `n`, namely `n`'s decimal form behind leading zeros.
  */
  function FourDigitCode(n: nat): (r: string)
    ensures n < 10000 ==> |r| == 4
    ensures AllDigits(r) && DigitsValue(r) == n
    ensures |r| >= |DecimalString(n)| && r[|r| - |DecimalString(n)|..] == DecimalString(n)
    ensures forall k :: 0 <= k < |r| - |DecimalString(n)| ==> r[k] == '0'
  {
    var d := DecimalString(n);
    DecimalLength(n);
    DecimalRoundTrip(n);
    var z := if |d| < 4 then 4 - |d| else 0;
    LeadingZeros(z, d);
    assert PadStart(d, 4, '0') == seq(z, _ => '0') + d;
    PadStart(d, 4, '0')
  }

  // ---------------------------------------------------------------------------
  // authenticateToken

  const BearerPrefix := "Bearer "

  function StartsWith(s: string, prefix: string): bool {
    |prefix| <= |s| && s[..|prefix|] == prefix
  }

  /**
    The token of an `Authorization` header: after a `"Bearer "` prefix it is
    `header.split(' ')[1]`, the run of non-space characters that follows the
    prefix; any other header is taken whole as the token.
  */
  function ExtractToken(header: string): (token: string)
    ensures !StartsWith(header, BearerPrefix) ==> token == header
    ensures StartsWith(header, BearerPrefix) ==>
              var rest := header[|BearerPrefix|..];
              && ' ' !in token
              && |token| <= |rest| && token == rest[..|token|]
              && (|token| == |rest| || rest[|token|] == ' ')
  {
    if StartsWith(header, BearerPrefix) then
      var rest := header[|BearerPrefix|..];
      assert header == "Bearer" + [' '] + rest;
      SplitAtFirst("Bearer", ' ', rest);
      var parts := Split(rest, ' ');
      FirstPiece(rest, ' ');
      assert Split(header, ' ') == ["Bearer"] + parts;
      Split(header, ' ')[1]
    else
      header
  }

  /** The first piece of a split is the prefix before the first separator. */
  lemma FirstPiece(s: string, sep: char)
    ensures var p := Split(s, sep)[0];
            && |p| <= |s| && p == s[..|p|]
            && (|p| == |s| || s[|p|] == sep)
  {
    var parts := Split(s, sep);
    JoinSplit(s, sep);
    if |parts| > 1 {
      assert s == parts[0] + [sep] + Join(parts[1..], sep);
      assert s[|parts[0]|] == sep;
    }
  }

  /** What a client sends: `Bearer <token>`. The middleware reads the token back. */
  lemma BearerRoundTrip(token: string)
    requires ' ' !in token
    ensures ExtractToken(BearerPrefix + token) == token
  {
    var header := BearerPrefix + token;
    assert StartsWith(header, BearerPrefix);
    assert header[|BearerPrefix|..] == token;
    var r := ExtractToken(header);
    assert |r| == |token|;
    assert r == token[..|token|];
  }

  /** The claims a verified token carries: the user id and the issue time in seconds. */
  datatype Claims = Claims(id: UserId, iat: int)

  datatype AuthError = TokenRequired | InvalidToken | UserNotFound | PasswordChanged {
    function Code(): nat {
      if InvalidToken? then 403 else 401
    }
  }

  /**
    The password-changed check: a token is refused when its issue time, in
    milliseconds, is before the account's `passwordChangedAt`. An account that
    never changed its password refuses nothing.
  */
  predicate TokenRevoked(iat: int, passwordChangedAt: Option<int>) {
    passwordChangedAt.Some? && iat * 1000 < passwordChangedAt.value
  }

  /** Revocation is monotone in time: a token older than a revoked one is revoked too. */
  lemma RevokedOlderRevoked(iat1: int, iat2: int, changedAt: Option<int>)
    requires iat1 <= iat2 && TokenRevoked(iat2, changedAt)
    ensures TokenRevoked(iat1, changedAt)
  {
  }

  /**
    A token issued (at `issuedMs`, recorded in whole seconds as `iat`) in a
    later second than the change is accepted; one issued after the change but
    within the same second is still refused, because `iat` drops the
    milliseconds.
  */
  lemma RevocationGranularity(issuedMs: nat, changedAt: nat)
    ensures issuedMs / 1000 > changedAt / 1000 ==> !TokenRevoked(issuedMs / 1000, Some(changedAt))
    ensures changedAt <= issuedMs && issuedMs / 1000 == changedAt / 1000 && changedAt % 1000 != 0
            ==> TokenRevoked(issuedMs / 1000, Some(changedAt))
  {
    var q := changedAt / 1000;
    assert changedAt == q * 1000 + changedAt % 1000;
    if issuedMs / 1000 > q {
      assert (issuedMs / 1000) * 1000 >= (q + 1) * 1000;
    }
  }

  /**
    `authenticateToken`: the header is `authorization` if truthy, otherwise
    `Authorization`; no header or an empty token is 401; a token the verifier
    refuses is 403 (`verify` stands for `jwt.verify` with the server secret);
    an id with no account is 401 (`passwordChangedAt` maps each account to
    its last password change, if any); a token from before the last password
    change is 401; otherwise the request proceeds with the token's claims.
  */
  function Authenticate(authorization: Option<string>, authorizationCapitalised: Option<string>,
                        verify: string -> Option<Claims>,
                        passwordChangedAt: map<UserId, Option<int>>): (r: Result<Claims, AuthError>)
    ensures var header := if Given(authorization) then authorization else authorizationCapitalised;
            && (r == Failure(TokenRequired) <==> !Given(header) || ExtractToken(header.value) == "")
            && (r.Success? <==>
                  && Given(header) && ExtractToken(header.value) != ""
                  && verify(ExtractToken(header.value)).Some?
                  && var c := verify(ExtractToken(header.value)).value;
                     c.id in passwordChangedAt && !TokenRevoked(c.iat, passwordChangedAt[c.id]))
            && (r.Success? ==> r.value == verify(ExtractToken(header.value)).value)
            && (r == Failure(InvalidToken) <==>
                  Given(header) && ExtractToken(header.value) != "" && verify(ExtractToken(header.value)).None?)
  {
    var header := if Given(authorization) then authorization else authorizationCapitalised;
    if !Given(header) then Failure(TokenRequired)
    else
      var token := ExtractToken(header.value);
      if token == "" then Failure(TokenRequired)
      else match verify(token)
        case None => Failure(InvalidToken)
        case Some(claims) =>
          if claims.id !in passwordChangedAt then Failure(UserNotFound)
          else if TokenRevoked(claims.iat, passwordChangedAt[claims.id]) then Failure(PasswordChanged)
          else Success(claims)
  }

  /** A bare token (no `Bearer ` prefix) is used as it is. */
  lemma RawTokenAccepted(token: string, verify: string -> Option<Claims>, changed: map<UserId, Option<int>>)
    requires token != "" && !StartsWith(token, BearerPrefix)
    requires verify(token).Some? && verify(token).value.id in changed
    requires changed[verify(token).value.id] == None
    ensures Authenticate(Some(token), None, verify, changed) == Success(verify(token).value)
  {
  }
}

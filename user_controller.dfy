/**
  Account creation and login. Signup rejects on the first failing check
  (required fields, email format, password strength, account type), turns
  a bad phone number, a failed geocoding and an address that is not a
  postcode into warnings, refuses an email or phone already in use, and adds
  the address to the account's post codes when it is one. Login answers an
  unknown email and a wrong password with the same error.

  The password hash, the token signatures and the geocoder are outcomes
  passed in; the existing accounts are a sequence searched in order.
*/
module UserController {
  import opened Basics
  import opened Text
  import opened UserSchema
  import Credentials

  datatype SignupReason =
    | MissingFields
    | BadEmail(message: string)
    | BadPassword(message: string)
    | BadUserType
    | AlreadyInUse
    | ServerError
  {
    function Code(): nat {
      if ServerError? then 500 else 400
    }
  }

  datatype SignupBody = SignupBody(
    firstName: Option<string>,
    lastName: Option<string>,
    email: Option<string>,
    phone: Option<string>,
    password: Option<string>,
    userType: Option<string>,
    address: Option<string>,
    postCodes: Option<seq<string>>)

  /** The account types signup accepts: an admin cannot sign up. */
  const SignupTypes: seq<string> := ["user", "specialist"]

  const PhoneWarning := "Invalid phone number format. Use local format (e.g., 08166489562) or international format (e.g., +2348166489562). Phone number saved but may need correction."
  const PostcodeFormatWarning := "Address does not match expected postcode/zip code format. Saved as provided."

  function AddressWarning(message: string): string {
    "Address geocoding failed: " + message + ". Address saved but may need verification."
  }

  /** The country the address is geocoded in: UK for plain users, US for specialists. */
  function Country(userType: string): string {
    if userType == "user" then "UK" else "US"
  }

  /** The guard chain of `signup`. */
  function SignupChecks(b: SignupBody): seq<Check<SignupReason>> {
    var email := if b.email.Some? then b.email.value else "";
    var password := if b.password.Some? then b.password.value else "";
    var v := Credentials.ValidateUserInput(email, password);
    [ Check(|| !Given(b.firstName) || !Given(b.lastName) || !Given(b.email) || !Given(b.password)
            || !Given(b.userType) || !Given(b.address), MissingFields),
      Check(!v.email.isValid, BadEmail(v.email.message)),
      Check(!v.password.isValid, BadPassword(v.password.message)),
      Check(b.userType.None? || b.userType.value !in SignupTypes, BadUserType) ]
  }

  /** What a body that passed the signup checks holds. */
  lemma SignupChecksPassed(b: SignupBody)
    requires FirstFailure(SignupChecks(b)).None?
    ensures Given(b.firstName) && Given(b.lastName) && Given(b.email) && Given(b.password)
    ensures Given(b.userType) && Given(b.address)
    ensures EmailPattern(b.email.value) && PasswordPattern(b.password.value)
    ensures b.userType.value == "user" || b.userType.value == "specialist"
  {
    var checks := SignupChecks(b);
    assert !checks[0].failed && !checks[1].failed && !checks[2].failed && !checks[3].failed;
  }

  /** The order of the checks: a missing field is reported before a malformed email, that before a weak password. */
  lemma SignupCheckOrder(b: SignupBody)
    ensures !Given(b.email) ==> FirstFailure(SignupChecks(b)) == Some(MissingFields)
    ensures FirstFailure(SignupChecks(b)).None? ==> Given(b.email) && Credentials.ValidateEmail(b.email.value).isValid
    ensures FirstFailure(SignupChecks(b)) == Some(BadUserType) ==>
              b.userType.Some? && b.userType.value !in SignupTypes && PasswordPattern(b.password.value)
  {
    var checks := SignupChecks(b);
    if !Given(b.email) {
      FirstFailureIs(checks, 0);
    }
    if FirstFailure(checks).None? {
      SignupChecksPassed(b);
    }
    if FirstFailure(checks) == Some(BadUserType) {
      BadUserTypeReported(b);
    }
  }

  lemma BadUserTypeReported(b: SignupBody)
    requires FirstFailure(SignupChecks(b)) == Some(BadUserType)
    ensures b.userType.Some? && b.userType.value !in SignupTypes && PasswordPattern(b.password.value)
  {
    var checks := SignupChecks(b);
    var k :| 0 <= k < |checks| && checks[k].failed && checks[k].reason == BadUserType
             && forall j :: 0 <= j < k ==> !checks[j].failed;
    assert k == 3;
    assert !checks[0].failed && !checks[2].failed;
  }

  /** An admin account cannot be created through signup, whatever else the body holds. */
  lemma AdminRefused(b: SignupBody)
    requires b.userType == Some("admin")
    ensures FirstFailure(SignupChecks(b)).Some?
  {
    var checks := SignupChecks(b);
    assert checks[3].failed;
  }

  // ---------------------------------------------------------------------------
  // the duplicate query

  /**
    `User.findOne({ $or: [{ email }, phone ? { phone } : {}] })` as written:
    without a phone the second branch is the empty filter, which every
    account matches.
  */
  predicate DuplicateQueryAsWritten(users: seq<UserDoc>, email: string, phone: Option<string>) {
    exists k :: 0 <= k < |users| && (users[k].email == email || !Given(phone) || users[k].phone == phone)
  }

  /** As written, a signup without a phone is refused as a duplicate as soon as any account exists. */
  lemma PhonelessSignupBlocked(users: seq<UserDoc>, email: string, phone: Option<string>)
    requires !Given(phone)
    ensures DuplicateQueryAsWritten(users, email, phone) <==> users != []
  {
    if users != [] {
      var u := users[0];
    }
  }

  /** The intended query: some account has this email, or a phone was given and some account has it. */
  predicate EmailOrPhoneTaken(users: seq<UserDoc>, email: string, phone: Option<string>) {
    exists k :: 0 <= k < |users| && (users[k].email == email || (Given(phone) && users[k].phone == phone))
  }

  /** The intended query never refuses a new email without a phone, and agrees with the written one when a phone is given. */
  lemma TakenMeaning(users: seq<UserDoc>, email: string, phone: Option<string>)
    ensures !Given(phone) ==> (EmailOrPhoneTaken(users, email, phone) <==> exists k :: 0 <= k < |users| && users[k].email == email)
    ensures Given(phone) ==> (EmailOrPhoneTaken(users, email, phone) <==> DuplicateQueryAsWritten(users, email, phone))
    ensures EmailOrPhoneTaken(users, email, phone) ==> DuplicateQueryAsWritten(users, email, phone)
  {
  }

  // ---------------------------------------------------------------------------
  // signup

  /** The address counts as a postcode when it is a UK postcode (either case) or a US ZIP code. */
  predicate PostcodeShaped(address: string) {
    UkPostcode(address) || UsZip(address)
  }

  /**
    The warnings `signup` collects before the duplicate check: a phone that
    is given but of neither accepted shape, then a failed geocoding
    (`geoError` is the geocoder's failure message, if any), which also sets
    the flag that later decides the postcode step.
  */
  method EarlyWarnings(phone: Option<string>, geoError: Option<string>)
    returns (warnings: seq<string>, geocodingFailed: bool)
    ensures geocodingFailed <==> geoError.Some?
    ensures warnings == (if Given(phone) && !PhoneShaped(phone.value) then [PhoneWarning] else [])
                        + (if geoError.Some? then [AddressWarning(geoError.value)] else [])
  {
    warnings := [];
    if Given(phone) && !PhoneShaped(phone.value) {
      warnings := warnings + [PhoneWarning];
    }
    geocodingFailed := false;
    if geoError.Some? {
      var w := AddressWarning(geoError.value);
      warnings := warnings + [w];
      geocodingFailed := true;
    }
  }

  /**
    The postcode step of `signup`: the given list is copied, and the address
    is appended when geocoding succeeded and the address is a UK postcode or
    a US ZIP code; in every other case the format warning is given instead.
  */
  method ExtractPostcodes(given: seq<string>, address: string, geocodingFailed: bool)
    returns (extracted: seq<string>, warnings: seq<string>)
    ensures !geocodingFailed && PostcodeShaped(address) ==> extracted == given + [address] && warnings == []
    ensures geocodingFailed || !PostcodeShaped(address) ==> extracted == given && warnings == [PostcodeFormatWarning]
  {
    extracted := given;
    warnings := [];
    if !geocodingFailed && PostcodeShaped(address) {
      extracted := extracted + [address];
    } else if geocodingFailed || !PostcodeShaped(address) {
      warnings := warnings + [PostcodeFormatWarning];
    }
  }

  /**
    `signup`. `geocode` maps the country to the geocoder's failure message,
    if any; `hashed` is the hash of the password; `newId` is the id the new
    account receives. On success the new account and the warnings of the 201
    response; on a failing check, a duplicate, or a record the schema refuses,
    the error and no account.
  */
  method Signup(users: seq<UserDoc>, body: SignupBody, geocode: string -> Option<string>, hashed: string, newId: UserId)
    returns (r: Result<UserDoc, SignupReason>, warnings: seq<string>)
    ensures FirstFailure(SignupChecks(body)).Some? ==> r == Failure(FirstFailure(SignupChecks(body)).value)
    ensures r.Failure? ==> warnings == []
    ensures FirstFailure(SignupChecks(body)).None? ==>
              && Given(body.firstName) && Given(body.lastName)
              && Given(body.email) && Given(body.userType) && Given(body.address)
              && (body.userType.value == "user" || body.userType.value == "specialist")
              && (r == Failure(AlreadyInUse) <==> EmailOrPhoneTaken(users, body.email.value, body.phone))
    ensures FirstFailure(SignupChecks(body)).None? && !EmailOrPhoneTaken(users, body.email.value, body.phone) ==>
              var account := SignupAccount(body, hashed, newId, SignupPostcodes(body, geocode(Country(body.userType.value))));
              && (r.Success? <==> ValidUser(account))
              && (r.Success? ==> r.value == account)
              && (r.Failure? ==> r == Failure(ServerError))
    ensures r.Success? ==>
              && FirstFailure(SignupChecks(body)).None?
              && Given(body.email) && Given(body.userType) && Given(body.address)
              && !EmailOrPhoneTaken(users, body.email.value, body.phone)
              && ValidUser(r.value)
              && r.value.id == newId && r.value.email == body.email.value && r.value.phone == body.phone
              && r.value.password == hashed && r.value.userType.Name() == body.userType.value
              && !r.value.isVerified && r.value.reviews == []
    ensures r.Success? ==>
              var given := if body.postCodes.Some? then body.postCodes.value else [];
              var geoError := geocode(Country(body.userType.value));
              var added := geoError.None? && PostcodeShaped(body.address.value);
              var w1 := if Given(body.phone) && !PhoneShaped(body.phone.value) then [PhoneWarning] else [];
              var w2 := if geoError.Some? then [AddressWarning(geoError.value)] else [];
              var w3 := if added then [] else [PostcodeFormatWarning];
              && r.value.postCodes == (if added then given + [body.address.value] else given)
              && warnings == w1 + w2 + w3
  {
    var first := FirstFailure(SignupChecks(body));
    if first.Some? {
      return Failure(first.value), [];
    }
    assert !SignupChecks(body)[0].failed && !SignupChecks(body)[3].failed;
    var address := body.address.value;
    var userType := body.userType.value;
    var geoError := geocode(Country(userType));
    var geocodingFailed;
    warnings, geocodingFailed := EarlyWarnings(body.phone, geoError);
    if EmailOrPhoneTaken(users, body.email.value, body.phone) {
      return Failure(AlreadyInUse), [];
    }
    var extracted, formatWarning := ExtractPostcodes(if body.postCodes.Some? then body.postCodes.value else [],
                                                     address, geocodingFailed);
    warnings := warnings + formatWarning;
    assert extracted == SignupPostcodes(body, geoError);
    r := SaveAccount(body, hashed, newId, extracted);
    if r.Failure? {
      warnings := [];
    }
  }

  /** The account `new User({...})` builds from a checked signup body, the hash and the post codes. */
  function SignupAccount(body: SignupBody, hashed: string, newId: UserId, postCodes: seq<string>): (u: UserDoc)
    requires Given(body.firstName) && Given(body.lastName) && Given(body.email) && Given(body.address)
    requires body.userType == Some("user") || body.userType == Some("specialist")
    ensures u.id == newId && u.email == body.email.value && u.phone == body.phone
    ensures u.password == hashed && u.userType.Name() == body.userType.value
    ensures !u.isVerified && u.reviews == [] && u.postCodes == postCodes
  {
    var t := if body.userType.value == "user" then User else Specialist;
    NewUser(newId, body.firstName.value, body.lastName.value, body.email.value, body.phone,
            hashed, t, body.address.value, Some(postCodes))
  }

  /**
    The post codes signup stores: the given list, plus the address when
    geocoding succeeded and the address is a UK postcode or a US ZIP code.
  */
  function SignupPostcodes(body: SignupBody, geoError: Option<string>): seq<string>
    requires Given(body.address)
  {
    var given := if body.postCodes.Some? then body.postCodes.value else [];
    if geoError.None? && PostcodeShaped(body.address.value) then given + [body.address.value] else given
  }

  /**
    The end of `signup`: the account built from the checked body, the hash
    and the post codes, and the `save()` that refuses a record the schema
    does not accept.
  */
  method SaveAccount(body: SignupBody, hashed: string, newId: UserId, postCodes: seq<string>)
    returns (r: Result<UserDoc, SignupReason>)
    requires Given(body.firstName) && Given(body.lastName) && Given(body.email) && Given(body.address)
    requires body.userType == Some("user") || body.userType == Some("specialist")
    ensures r.Failure? ==> r.error == ServerError
    ensures r.Success? <==> ValidUser(SignupAccount(body, hashed, newId, postCodes))
    ensures r.Success? ==> r.value == SignupAccount(body, hashed, newId, postCodes)
    ensures r.Success? ==>
              && ValidUser(r.value)
              && r.value.id == newId && r.value.email == body.email.value && r.value.phone == body.phone
              && r.value.password == hashed && r.value.userType.Name() == body.userType.value
              && !r.value.isVerified && r.value.reviews == [] && r.value.postCodes == postCodes
  {
    var user := SignupAccount(body, hashed, newId, postCodes);
    if !ValidUser(user) {
      return Failure(ServerError);
    }
    r := Success(user);
  }

  /**
    The post codes are extended, or a warning is given, never both and never
    neither: the address joins the list exactly when geocoding succeeded and
    the address is a postcode.
  */
  lemma PostcodeOrWarning(geoFailed: bool, address: string)
    ensures var added := !geoFailed && PostcodeShaped(address);
            var warned := geoFailed || (!UkPostcode(address) && !UsZip(address));
            added != warned
  {
  }

  /**
    The format check of the user record is stricter than the signup check:
    an address whose last label is longer than four characters (such as
    `a@b.museum`) passes the signup check and is refused by the schema, so
    signup ends in a server error.
  */
  lemma LongTopLabelRefused(local: string, host: string, top: string)
    requires Plain(local) && Plain(host) && Plain(top)
    requires '.' !in host && '.' !in top && |top| > 4
    ensures Credentials.ValidateEmail(local + ['@'] + (host + ['.'] + top)).isValid
    ensures !SchemaEmail(local + ['@'] + (host + ['.'] + top))
  {
    Credentials.AnyDomainAccepted(local, host, top);
    var d := host + ['.'] + top;
    PlainFacts(local);
    PlainFacts(host);
    PlainFacts(top);
    SplitAtFirst(local, '@', d);
    assert '@' !in d by {
      assert forall k :: 0 <= k < |d| ==> d[k] != '@' by {
        forall k | 0 <= k < |d| ensures d[k] != '@' {
          if k > |host| { assert d[k] == top[k - |host| - 1]; }
        }
      }
    }
    SplitWithoutSep(d, '@');
    assert Split(local + ['@'] + d, '@') == [local, d];
    SplitAtFirst(host, '.', top);
    SplitWithoutSep(top, '.');
    assert Split(d, '.') == [host, top];
  }

  // ---------------------------------------------------------------------------
  // login

  datatype LoginReason = MissingCredentials | LoginBadEmail(message: string) | InvalidCredentials {
    function Code(): nat {
      if InvalidCredentials? then 401 else 400
    }
  }

  /** `User.findOne({ email })`: the first account with that email, if any. */
  function FindByEmail(users: seq<UserDoc>, email: string): (r: Option<UserDoc>)
    ensures r.None? <==> forall k :: 0 <= k < |users| ==> users[k].email != email
    ensures r.Some? ==> exists k :: 0 <= k < |users| && users[k] == r.value && r.value.email == email
                                    && forall j :: 0 <= j < k ==> users[j].email != email
  {
    if users == [] then None
    else if users[0].email == email then Some(users[0])
    else
      var r := FindByEmail(users[1..], email);
      assert forall k :: 1 <= k < |users| ==> users[k] == users[1..][k - 1];
      r
  }

  /**
    `login`: both fields required, the email well formed, then the account
    looked up and the password compared (`passwordMatches(plain, hash)`
    stands for the bcrypt comparison).
  */
  function Login(users: seq<UserDoc>, email: Option<string>, password: Option<string>,
                 passwordMatches: (string, string) -> bool): (r: Result<UserDoc, LoginReason>)
    ensures !Given(email) || !Given(password) <==> r == Failure(MissingCredentials)
    ensures r.Success? <==>
              && Given(email) && Given(password) && EmailPattern(email.value)
              && FindByEmail(users, email.value).Some?
              && passwordMatches(password.value, FindByEmail(users, email.value).value.password)
    ensures r.Success? ==> r.value.email == email.value
    ensures r == Failure(InvalidCredentials) <==>
              && Given(email) && Given(password) && EmailPattern(email.value)
              && (|| FindByEmail(users, email.value).None?
                  || !passwordMatches(password.value, FindByEmail(users, email.value).value.password))
  {
    if !Given(email) || !Given(password) then Failure(MissingCredentials)
    else
      var v := Credentials.ValidateUserInput(email.value, password.value);
      if !v.email.isValid then Failure(LoginBadEmail(v.email.message))
      else match FindByEmail(users, email.value)
        case None => Failure(InvalidCredentials)
        case Some(u) =>
          if !passwordMatches(password.value, u.password) then Failure(InvalidCredentials)
          else Success(u)
  }

  /** An unknown email and a wrong password for a known one get the very same answer. */
  lemma LoginErrorsUniform(users: seq<UserDoc>, unknown: string, known: string, password: string,
                           passwordMatches: (string, string) -> bool)
    requires password != "" && unknown != "" && known != ""
    requires EmailPattern(unknown) && EmailPattern(known)
    requires forall k :: 0 <= k < |users| ==> users[k].email != unknown
    requires FindByEmail(users, known).Some?
    requires !passwordMatches(password, FindByEmail(users, known).value.password)
    ensures Login(users, Some(unknown), Some(password), passwordMatches)
            == Login(users, Some(known), Some(password), passwordMatches)
            == Failure(InvalidCredentials)
  {
  }
}

/**
  The user record: the account type enum and its default, the verification
  flag, the post codes, the embedded profile reviews, and the format the
  schema itself demands of the stored email and password.
*/
module UserSchema {
  import opened Basics
  import opened Text
  import Credentials

  datatype UserType = User | Specialist | Admin {
    function Name(): string {
      match this
      case User => "user"
      case Specialist => "specialist"
      case Admin => "admin"
    }
  }

  const UserTypeNames: seq<string> := ["user", "specialist", "admin"]

  /**
    The `user_type` path: an absent value takes the default `"user"`; a
    given value is kept only when it is one of the enum's names.
  */
  function ParseUserType(s: Option<string>): (r: Option<UserType>)
    ensures s.None? ==> r == Some(User)
    ensures s.Some? ==> (r.Some? <==> s.value in UserTypeNames)
    ensures s.Some? && r.Some? ==> r.value.Name() == s.value
  {
    if s.None? then Some(User)
    else if s.value == "user" then Some(User)
    else if s.value == "specialist" then Some(Specialist)
    else if s.value == "admin" then Some(Admin)
    else None
  }

  /** Every account type is stored under its own name and read back as itself. */
  lemma UserTypeRoundTrip(t: UserType)
    ensures ParseUserType(Some(t.Name())) == Some(t)
    ensures t.Name() in UserTypeNames
  {
  }

  /** A review embedded in a user's profile. */
  datatype ProfileReview = ProfileReview(rating: real, comment: Option<string>, reviewerId: UserId)

  /** Rating 1..5, comment at most 500 characters, a reviewer. */
  predicate ValidProfileReview(r: ProfileReview) {
    && 1.0 <= r.rating <= 5.0
    && (r.comment.Some? ==> |r.comment.value| <= 500)
    && r.reviewerId != ""
  }

  datatype UserDoc = UserDoc(
    id: UserId,
    firstName: string,
    lastName: string,
    email: string,
    phone: Option<string>,
    password: string,
    userType: UserType,
    address: string,
    postCodes: seq<string>,
    isVerified: bool,
    passwordChangedAt: Option<int>,
    reviews: seq<ProfileReview>)

  /**
    A new account as the model constructor builds it: the given fields, the
    defaults for what is not given (`postCodes` empty, not verified, no
    password change, no reviews).
  */
  function NewUser(id: UserId, firstName: string, lastName: string, email: string, phone: Option<string>,
                   password: string, userType: UserType, address: string,
                   postCodes: Option<seq<string>>): (u: UserDoc)
    ensures !u.isVerified && u.reviews == [] && u.passwordChangedAt.None?
    ensures u.postCodes == if postCodes.Some? then postCodes.value else []
    ensures u.id == id && u.email == email && u.phone == phone && u.userType == userType
    ensures u.firstName == firstName && u.lastName == lastName && u.password == password && u.address == address
  {
    UserDoc(id, firstName, lastName, email, phone, password, userType, address,
            if postCodes.Some? then postCodes.value else [], false, None, [])
  }

  // ---------------------------------------------------------------------------
  // /^[\w-\.]+@([\w-]+\.)+[\w-]{2,4}$/

  /** `[\w-\.]`: a word character, '-' or '.'. */
  predicate IsLocalChar(c: char) {
    IsWordChar(c) || c == '-' || c == '.'
  }

  /** `[\w-]`: a word character or '-'. */
  predicate IsLabelChar(c: char) {
    IsWordChar(c) || c == '-'
  }

  predicate AllLocal(s: string) {
    forall k :: 0 <= k < |s| ==> IsLocalChar(s[k])
  }

  /** `[\w-]+`: a non-empty run of label characters. */
  predicate Label(s: string) {
    s != [] && forall k :: 0 <= k < |s| ==> IsLabelChar(s[k])
  }

  /** `[\w-]{2,4}`. */
  predicate TopLabel(s: string) {
    2 <= |s| <= 4 && Label(s)
  }

  /** What `([\w-]+\.)+[\w-]{2,4}` matches: a label, a dot, then a top label or more of the same. */
  ghost predicate DomainPattern(d: string)
    decreases |d|
  {
    exists i :: 0 < i < |d| && d[i] == '.' && Label(d[..i])
                && (TopLabel(d[i + 1..]) || DomainPattern(d[i + 1..]))
  }

  ghost predicate SchemaEmailPattern(s: string) {
    exists i :: 0 < i < |s| && s[i] == '@' && AllLocal(s[..i]) && s[..i] != [] && DomainPattern(s[i + 1..])
  }

  /** The decision procedure for the domain: two or more labels split on '.', the last of 2..4 characters. */
  predicate DomainShaped(d: string) {
    var labels := Split(d, '.');
    && |labels| >= 2
    && (forall k :: 0 <= k < |labels| ==> Label(labels[k]))
    && 2 <= |labels[|labels| - 1]| <= 4
  }

  /** The decision procedure for the address: one '@', a non-empty local part, a domain. */
  predicate SchemaEmail(s: string) {
    var parts := Split(s, '@');
    && |parts| == 2
    && parts[0] != []
    && AllLocal(parts[0])
    && DomainShaped(parts[1])
  }

  lemma LabelNoDot(s: string)
    requires Label(s)
    ensures '.' !in s && '@' !in s
  {
    assert forall k :: 0 <= k < |s| ==> s[k] != '.' && s[k] != '@';
  }

  /** A label and a dot come off a split first. */
  lemma SplitLabelDot(a: string, rest: string)
    requires Label(a)
    ensures Split(a + ['.'] + rest, '.') == [a] + Split(rest, '.')
  {
    LabelNoDot(a);
    SplitAtFirst(a, '.', rest);
  }

  lemma ShapedPair(a: string, t: string)
    requires Label(a) && TopLabel(t)
    ensures DomainShaped(a + ['.'] + t)
  {
    SplitLabelDot(a, t);
    LabelNoDot(t);
    SplitWithoutSep(t, '.');
    assert Split(a + ['.'] + t, '.') == [a, t];
  }

  lemma ShapedCons(a: string, rest: string)
    requires Label(a) && DomainShaped(rest)
    ensures DomainShaped(a + ['.'] + rest)
  {
    SplitLabelDot(a, rest);
    var tail := Split(rest, '.');
    var labels := [a] + tail;
    assert forall k :: 1 <= k < |labels| ==> labels[k] == tail[k - 1];
  }

  lemma {:induction false} DomainPatternIsShaped(d: string)
    requires DomainPattern(d)
    ensures DomainShaped(d)
    decreases |d|
  {
    var i :| 0 < i < |d| && d[i] == '.' && Label(d[..i])
             && (TopLabel(d[i + 1..]) || DomainPattern(d[i + 1..]));
    assert d == d[..i] + ['.'] + d[i + 1..];
    if TopLabel(d[i + 1..]) {
      ShapedPair(d[..i], d[i + 1..]);
    } else {
      DomainPatternIsShaped(d[i + 1..]);
      ShapedCons(d[..i], d[i + 1..]);
    }
  }

  /** Joining three or more labels gives a shaped domain when the last one is short enough. */
  lemma JoinedShaped(labels: seq<string>)
    requires |labels| >= 2
    requires forall k :: 0 <= k < |labels| ==> Label(labels[k])
    requires 2 <= |labels[|labels| - 1]| <= 4
    ensures DomainShaped(Join(labels, '.'))
  {
    forall k | 0 <= k < |labels|
      ensures '.' !in labels[k]
    {
      LabelNoDot(labels[k]);
    }
    SplitJoin(labels, '.');
  }

  /** A shaped domain is a label, a dot, and either a top label or a shaped domain. */
  lemma ShapedUncons(d: string) returns (a: string, rest: string)
    requires DomainShaped(d)
    ensures d == a + ['.'] + rest && Label(a)
    ensures TopLabel(rest) || (DomainShaped(rest) && |rest| < |d|)
  {
    var labels := Split(d, '.');
    a := labels[0];
    JoinSplit(d, '.');
    rest := Join(labels[1..], '.');
    assert Label(labels[0]);
    if |labels| == 2 {
      assert Label(labels[1]);
    } else {
      var tail := labels[1..];
      assert forall k :: 0 <= k < |tail| ==> Label(tail[k]) by {
        forall k | 0 <= k < |tail| ensures Label(tail[k]) {
          assert tail[k] == labels[k + 1];
        }
      }
      JoinedShaped(tail);
    }
  }

  lemma {:induction false} DomainShapedIsPattern(d: string)
    requires DomainShaped(d)
    ensures DomainPattern(d)
    decreases |d|
  {
    var a, rest := ShapedUncons(d);
    var i := |a|;
    assert d[..i] == a && d[i + 1..] == rest && d[i] == '.';
    if !TopLabel(rest) {
      DomainShapedIsPattern(rest);
    }
  }

  /** The address check agrees with the schema's pattern on every string. */
  lemma SchemaEmailIffPattern(s: string)
    ensures SchemaEmail(s) <==> SchemaEmailPattern(s)
  {
    if SchemaEmail(s) {
      SchemaEmailIsPattern(s);
    }
    if SchemaEmailPattern(s) {
      PatternIsSchemaEmail(s);
    }
  }

  lemma PatternIsSchemaEmail(s: string)
    requires SchemaEmailPattern(s)
    ensures SchemaEmail(s)
  {
    var i :| 0 < i < |s| && s[i] == '@' && AllLocal(s[..i]) && s[..i] != [] && DomainPattern(s[i + 1..]);
    PatternAtSchemaEmail(s, i);
  }

  lemma PatternAtSchemaEmail(s: string, i: int)
    requires 0 < i < |s| && s[i] == '@'
    requires AllLocal(s[..i]) && s[..i] != [] && DomainPattern(s[i + 1..])
    ensures SchemaEmail(s)
  {
    assert s == s[..i] + ['@'] + s[i + 1..];
    PatternPartsSchemaEmail(s[..i], s[i + 1..]);
  }

  lemma SchemaEmailIsPattern(s: string)
    requires SchemaEmail(s)
    ensures SchemaEmailPattern(s)
  {
    var parts := Split(s, '@');
    JoinSplit(s, '@');
    assert s == parts[0] + ['@'] + parts[1];
    var i := |parts[0]|;
    assert s[..i] == parts[0] && s[i + 1..] == parts[1] && s[i] == '@';
    DomainShapedIsPattern(parts[1]);
  }

  lemma PatternPartsSchemaEmail(a: string, d: string)
    requires a != [] && AllLocal(a) && DomainPattern(d)
    ensures SchemaEmail(a + ['@'] + d)
  {
    assert '@' !in a by {
      assert forall k :: 0 <= k < |a| ==> a[k] != '@';
    }
    DomainPatternIsShaped(d);
    DomainNoAt(d);
    SplitAtFirst(a, '@', d);
    SplitWithoutSep(d, '@');
    assert Split(a + ['@'] + d, '@') == [a, d];
  }

  lemma DomainNoAt(d: string)
    requires DomainShaped(d)
    ensures '@' !in d
  {
    var labels := Split(d, '.');
    JoinNoAt(labels);
    JoinSplit(d, '.');
  }

  lemma {:induction false} JoinNoAt(parts: seq<string>)
    requires |parts| >= 1
    requires forall k :: 0 <= k < |parts| ==> Label(parts[k])
    ensures '@' !in Join(parts, '.')
  {
    LabelNoDot(parts[0]);
    if |parts| > 1 {
      JoinNoAt(parts[1..]);
    }
  }

  // ---------------------------------------------------------------------------
  // the password path

  /**
    The stored password must be at least 8 characters and match the same
    pattern `validatePassword` uses. The length bound adds nothing: the
    pattern already demands eight characters.
  */
  predicate PasswordFieldValid(p: string) {
    |p| >= 8 && Credentials.ValidatePassword(p).isValid
  }

  lemma PasswordMinLengthRedundant(p: string)
    ensures PasswordFieldValid(p) <==> Credentials.ValidatePassword(p).isValid
  {
  }

  /** What `save()` demands of a user record. */
  predicate ValidUser(u: UserDoc) {
    && u.firstName != "" && u.lastName != ""
    && u.email != "" && SchemaEmail(u.email)
    && PasswordFieldValid(u.password)
    && u.address != ""
    && (forall k :: 0 <= k < |u.reviews| ==> ValidProfileReview(u.reviews[k]))
  }
}

/**
  The job handlers: creation with its guard chain and its list of
  non-blocking warnings, the update that validates only the fields it is
  given and merges them over the stored record, deletion, and the listing of
  a user's own jobs. Geocoding and uploads are outcomes passed in.
*/
module JobController {
  import opened Basics
  import opened Text
  import opened JobSchema
  import opened UserSchema
  import Credentials

  datatype JobReason =
    | MissingFields | TitleTooLong | DescriptionTooLong | BadImages | BadUrgency
    | NegativeBudget | BudgetOrder | BadDate
    | NotFound | NotOwner | OtherUser
    | ServerError
  {
    function Code(): nat {
      if NotFound? then 404
      else if NotOwner? || OtherUser? then 403
      else if ServerError? then 500
      else 400
    }
  }

  /** A job request body; `None` stands for a missing or `null` string field. */
  datatype JobBody = JobBody(
    title: Option<string>,
    description: Option<string>,
    category: Option<string>,
    images: ArrayField,
    postCode: Option<string>,
    address: Option<string>,
    budgetMin: NumField,
    budgetMax: NumField,
    urgency: Option<string>,
    preferredDate: Option<string>)

  /** `user_type === 'user' ? 'UK' : 'US'`: the country the address is geocoded in. */
  function CountryFor(userType: Option<string>): string {
    if userType == Some("user") then "UK" else "US"
  }

  /**
    The `user_type` member of `req.user`. The job handlers read it from the
    token's decoded claims, and a token carries the id and email it was
    signed with and its issue time, never the account type.
  */
  function ClaimedUserType(claims: Credentials.Claims): Option<string> {
    None
  }

  /**
    The job handlers geocode every address in the US: the type they test is
    read from the token, which never holds one, so a plain user's address is
    looked up in the US rather than the UK.
  */
  lemma PlainUserGeocodedInUS(u: UserDoc, claims: Credentials.Claims)
    requires u.userType == User && claims.id == u.id
    ensures CountryFor(ClaimedUserType(claims)) == "US"
    ensures IntendedJobCountry(u) == "UK"
  {
  }

  /**
    The country the job handlers evidently mean: the one the account's own
    type picks, as `createReport` does with the user record it loads. UK
    exactly for plain users.
  */
  function IntendedJobCountry(u: UserDoc): (country: string)
    ensures country == "UK" <==> u.userType == User
    ensures country == "US" <==> u.userType != User
  {
    UserTypeRoundTrip(u.userType);
    CountryFor(Some(u.userType.Name()))
  }

  const PostcodeWarning := "Postcode does not match expected format. Saved as provided."

  function AddressWarning(message: string): string {
    "Address geocoding failed: " + message + ". Address saved but may need verification."
  }

  /** A UK postcode (either case) or a US ZIP code. */
  predicate PostcodeShaped(p: string) {
    UkPostcode(p) || UsZip(p)
  }

  /** The checks both handlers make on the optional fields, in the order they make them. */
  function OptionalChecks(b: JobBody, parseDate: string -> Option<int>): seq<Check<JobReason>> {
    [ Check(Given(b.urgency) && b.urgency.value !in JobUrgencies, BadUrgency),
      Check(b.budgetMin.Truthy() && b.budgetMin.n < 0.0, NegativeBudget),
      Check(b.budgetMax.Truthy() && b.budgetMin.Truthy() && b.budgetMax.n < b.budgetMin.n, BudgetOrder),
      Check(Given(b.preferredDate) && parseDate(b.preferredDate.value).None?, BadDate) ]
  }

  /** The guard chain of `createJob`. */
  function CreateJobChecks(b: JobBody, parseDate: string -> Option<int>): seq<Check<JobReason>> {
    [ Check(|| !Given(b.title) || !Given(b.description) || !Given(b.category) || !b.images.Truthy()
            || !Given(b.postCode) || !Given(b.address), MissingFields),
      Check(Length(b.title) > 200, TitleTooLong),
      Check(Length(b.description) > 2000, DescriptionTooLong),
      Check(!b.images.Array? || |b.images.items| < 1 || |b.images.items| > 5, BadImages) ]
    + OptionalChecks(b, parseDate)
  }

  /** The guard chain of `updateJob`: each check applies only when its field is given. */
  function UpdateJobChecks(b: JobBody, parseDate: string -> Option<int>): seq<Check<JobReason>> {
    [ Check(Given(b.title) && |b.title.value| > 200, TitleTooLong),
      Check(Given(b.description) && |b.description.value| > 2000, DescriptionTooLong),
      Check(b.images.Truthy() && (!b.images.Array? || |b.images.items| < 1 || |b.images.items| > 5), BadImages) ]
    + OptionalChecks(b, parseDate)
  }

  /** What a body that passed the create checks holds. */
  lemma CreateChecksPassed(b: JobBody, parseDate: string -> Option<int>)
    requires FirstFailure(CreateJobChecks(b, parseDate)).None?
    ensures Given(b.title) && Given(b.description) && Given(b.category) && Given(b.postCode) && Given(b.address)
    ensures |b.title.value| <= 200 && |b.description.value| <= 2000
    ensures b.images.Array? && 1 <= |b.images.items| <= 5
    ensures Given(b.urgency) ==> b.urgency.value in JobUrgencies
    ensures b.budgetMin.Num? ==> b.budgetMin.n >= 0.0
    ensures b.budgetMax.Truthy() && b.budgetMin.Truthy() ==> b.budgetMax.n >= b.budgetMin.n
    ensures Given(b.preferredDate) ==> parseDate(b.preferredDate.value).Some?
  {
    var checks := CreateJobChecks(b, parseDate);
    assert !checks[0].failed && !checks[1].failed && !checks[2].failed && !checks[3].failed;
    assert !checks[4].failed && !checks[5].failed && !checks[6].failed && !checks[7].failed;
  }

  /** The images to store: the hosted URLs when the upload succeeded, the given ones otherwise. */
  function StoredImages(given: seq<string>, upload: UploadResult): seq<string> {
    if upload.Uploaded? then upload.urls else given
  }

  /** The record `new Job({...})` builds; the `trim` setters apply to the string paths. */
  function NewJobDoc(owner: UserId, b: JobBody, images: seq<string>, parseDate: string -> Option<int>,
                     uniqueNumber: string): JobDoc
    requires Given(b.title) && Given(b.description) && Given(b.category) && Given(b.postCode) && Given(b.address)
  {
    JobDoc(Trim(b.title.value), Trim(b.description.value), Trim(b.category.value), images,
           Trim(b.postCode.value), Trim(b.address.value), b.budgetMin, b.budgetMax, b.urgency,
           if Given(b.preferredDate) then parseDate(b.preferredDate.value) else None,
           owner, uniqueNumber)
  }

  /**
    The answer of `createJob`: the first failing check, else the record
    built from the body when the schema accepts it, else a server error
    (`save()` throws and the catch-all answers 500).
  */
  function CreateJobAnswer(owner: UserId, b: JobBody, parseDate: string -> Option<int>, upload: UploadResult,
                           uniqueNumber: string): Result<JobDoc, JobReason>
  {
    match FirstFailure(CreateJobChecks(b, parseDate))
    case Some(e) => Failure(e)
    case None =>
      CreateChecksPassed(b, parseDate);
      var j := NewJobDoc(owner, b, StoredImages(b.images.items, upload), parseDate, uniqueNumber);
      if ValidJob(j) then Success(j) else Failure(ServerError)
  }

  /**
    `createJob`. After the guard chain: a geocoding failure (`geocode` maps
    the country to the failure message, if any) adds a warning; the postcode
    warning is added only when geocoding succeeded and the postcode is
    neither a UK postcode nor a US ZIP code; a failed upload keeps the given
    image URLs and adds its message. The record is then saved; a record the
    schema refuses is a server error. Warnings never decide the outcome.
  */
  method CreateJob(actor: Credentials.Claims, body: JobBody, parseDate: string -> Option<int>,
                   geocode: string -> Option<string>, upload: UploadResult, uniqueNumber: string)
    returns (r: Result<JobDoc, JobReason>, warnings: seq<string>)
    ensures var first := FirstFailure(CreateJobChecks(body, parseDate));
            first.Some? ==> r == Failure(first.value) && warnings == []
    ensures r.Success? ==> FirstFailure(CreateJobChecks(body, parseDate)).None?
    ensures FirstFailure(CreateJobChecks(body, parseDate)).None? && r.Failure? ==> r == Failure(ServerError)
    ensures r == CreateJobAnswer(actor.id, body, parseDate, upload, uniqueNumber)
    ensures r.Failure? ==> warnings == []
    ensures r.Success? ==>
              && body.images.Array?
              && r.value == NewJobDoc(actor.id, body, StoredImages(body.images.items, upload), parseDate, uniqueNumber)
              && ValidJob(r.value)
    ensures FirstFailure(CreateJobChecks(body, parseDate)).None? && body.images.Array? ==>
              (r.Success? <==> ValidJob(NewJobDoc(actor.id, body, StoredImages(body.images.items, upload),
                                                  parseDate, uniqueNumber)))
    ensures r.Success? ==>
              var geoError := geocode(CountryFor(ClaimedUserType(actor)));
              warnings == (if geoError.Some? then [AddressWarning(geoError.value)] else [])
                          + (if geoError.None? && !PostcodeShaped(body.postCode.value) then [PostcodeWarning] else [])
                          + (if upload.UploadFailed? then [upload.message] else [])
  {
    var first := FirstFailure(CreateJobChecks(body, parseDate));
    if first.Some? {
      return Failure(first.value), [];
    }
    CreateChecksPassed(body, parseDate);
    var geoError := geocode(CountryFor(ClaimedUserType(actor)));
    ghost var w1: seq<string> := if geoError.Some? then [AddressWarning(geoError.value)] else [];
    ghost var w2: seq<string> := if geoError.None? && !PostcodeShaped(body.postCode.value) then [PostcodeWarning] else [];
    ghost var w3: seq<string> := if upload.UploadFailed? then [upload.message] else [];
    warnings := [];
    var geocodingFailed := false;
    if geoError.Some? {
      var w := AddressWarning(geoError.value);
      warnings := warnings + [w];
      geocodingFailed := true;
    }
    assert warnings == w1;
    if !geocodingFailed && !PostcodeShaped(body.postCode.value) {
      warnings := warnings + [PostcodeWarning];
    }
    assert warnings == w1 + w2;
    if upload.UploadFailed? {
      warnings := warnings + [upload.message];
    }
    assert warnings == w1 + w2 + w3;
    var imageUrls := if upload.Uploaded? then upload.urls else body.images.items;
    var job := NewJobDoc(actor.id, body, imageUrls, parseDate, uniqueNumber);
    if ValidJob(job) {
      r := Success(job);
    } else {
      r := Failure(ServerError);
      warnings := [];
    }
  }

  /**
    A body the controller lets through, with no blank required field, is
    stored exactly when the urgency is not the empty string and a truthy
    minimum comes with a truthy maximum or none at all: the controller's
    ordering check skips a falsy maximum, the schema's validator does not.
  */
  lemma CheckedJobSaved(owner: UserId, b: JobBody, images: seq<string>, parseDate: string -> Option<int>,
                        uniqueNumber: string)
    requires FirstFailure(CreateJobChecks(b, parseDate)).None?
    requires owner != "" && uniqueNumber != "" && 1 <= |images| <= 5
    requires Given(b.title) && Given(b.description) && Given(b.category) && Given(b.postCode) && Given(b.address)
    requires !Blank(b.title.value) && !Blank(b.description.value) && !Blank(b.category.value)
    requires !Blank(b.postCode.value) && !Blank(b.address.value)
    ensures ValidJob(NewJobDoc(owner, b, images, parseDate, uniqueNumber)) <==>
            && b.urgency != Some("")
            && (b.budgetMin.Truthy() ==> b.budgetMax.Truthy() || b.budgetMax == Undefined)
  {
    CreateChecksPassed(b, parseDate);
    var j := NewJobDoc(owner, b, images, parseDate, uniqueNumber);
    CheckedJobValid(j, b.budgetMin, b.budgetMax, b.urgency);
  }

  /**
    A record whose strings, images and owner are in order is valid exactly
    when its urgency is not empty and a truthy minimum comes with a truthy
    maximum or none, given budgets and an urgency that passed the checks.
  */
  lemma CheckedJobValid(j: JobDoc, budgetMin: NumField, budgetMax: NumField, urgency: Option<string>)
    requires j.title != "" && |j.title| <= 200 && j.description != "" && |j.description| <= 2000
    requires j.category != "" && 1 <= |j.images| <= 5 && j.postCode != "" && j.address != ""
    requires j.userId != "" && j.uniqueNumber != ""
    requires j.budgetMin == budgetMin && j.budgetMax == budgetMax && j.urgency == urgency
    requires Given(urgency) ==> urgency.value in JobUrgencies
    requires budgetMin.Num? ==> budgetMin.n >= 0.0
    requires budgetMax.Truthy() && budgetMin.Truthy() ==> budgetMax.n >= budgetMin.n
    ensures ValidJob(j) <==> urgency != Some("") && (budgetMin.Truthy() ==> budgetMax.Truthy() || budgetMax == Undefined)
  {
    CheckedBudgetsAccepted(budgetMin, budgetMax);
  }

  /** Budgets that passed the controller's checks satisfy the schema's validator unless the maximum is falsy. */
  lemma CheckedBudgetsAccepted(budgetMin: NumField, budgetMax: NumField)
    requires budgetMin.Num? ==> budgetMin.n >= 0.0
    requires budgetMax.Truthy() && budgetMin.Truthy() ==> budgetMax.n >= budgetMin.n
    ensures (budgetMax != Undefined ==> BudgetOrdered(budgetMin, budgetMax.AsNumber())) <==>
            (budgetMin.Truthy() ==> budgetMax.Truthy() || budgetMax == Undefined)
  {
  }

  /**
    A falsy maximum budget (0 or `null`) passes the controller's ordering
    check; under a positive minimum the schema's validator refuses it, and
    the request ends in a server error instead of a 400.
  */
  lemma FalsyMaximumSkipsOrderCheck(owner: UserId, b: JobBody, images: seq<string>, parseDate: string -> Option<int>,
                                    upload: UploadResult, uniqueNumber: string)
    requires b.budgetMin.Num? && b.budgetMin.n > 0.0
    requires b.budgetMax == Num(0.0) || b.budgetMax == Null
    requires Given(b.title) && Given(b.description) && Given(b.category) && Given(b.postCode) && Given(b.address)
    ensures !CreateJobChecks(b, parseDate)[5].failed && !CreateJobChecks(b, parseDate)[6].failed
    ensures !ValidJob(NewJobDoc(owner, b, images, parseDate, uniqueNumber))
    ensures FirstFailure(CreateJobChecks(b, parseDate)).None? ==>
              CreateJobAnswer(owner, b, parseDate, upload, uniqueNumber) == Failure(ServerError)
  {
    var opt := OptionalChecks(b, parseDate);
    assert CreateJobChecks(b, parseDate)[5] == opt[1] && CreateJobChecks(b, parseDate)[6] == opt[2];
    FalsyMaximumRefused(NewJobDoc(owner, b, images, parseDate, uniqueNumber));
    if FirstFailure(CreateJobChecks(b, parseDate)).None? {
      CreateChecksPassed(b, parseDate);
      FalsyMaximumRefused(NewJobDoc(owner, b, StoredImages(b.images.items, upload), parseDate, uniqueNumber));
    }
  }

  /** The schema refuses a falsy maximum under a positive minimum. */
  lemma FalsyMaximumRefused(j: JobDoc)
    requires j.budgetMin.Num? && j.budgetMin.n > 0.0
    requires j.budgetMax == Num(0.0) || j.budgetMax == Null
    ensures !ValidJob(j)
  {
    assert !BudgetMaxAccepted(j);
  }

  // ---------------------------------------------------------------------------
  // updateJob

  /**
    The update object: a string field keeps the stored value when the new
    one is missing or empty, a budget is overwritten whenever it is not
    `undefined` (`null` and 0 are stored as given), the urgency keeps the stored
    value unless a non-empty one is given, the date changes only when one is
    given, the images are those computed by the upload step.
  */
  function MergeJob(j: JobDoc, b: JobBody, images: seq<string>, parseDate: string -> Option<int>): JobDoc {
    j.(title := if Given(b.title) then Trim(b.title.value) else j.title,
       description := if Given(b.description) then Trim(b.description.value) else j.description,
       category := if Given(b.category) then Trim(b.category.value) else j.category,
       images := images,
       postCode := if Given(b.postCode) then Trim(b.postCode.value) else j.postCode,
       address := if Given(b.address) then Trim(b.address.value) else j.address,
       budgetMin := if b.budgetMin != Undefined then b.budgetMin else j.budgetMin,
       budgetMax := if b.budgetMax != Undefined then b.budgetMax else j.budgetMax,
       urgency := if Given(b.urgency) then b.urgency else j.urgency,
       preferredDate := if Given(b.preferredDate) then parseDate(b.preferredDate.value) else j.preferredDate)
  }

  /** The body with nothing in it. */
  const EmptyBody := JobBody(None, None, None, Absent, None, None, Undefined, Undefined, None, None)

  /** Only what the body provides changes; the owner and the unique number never do. */
  lemma MergeChangesOnlyProvided(j: JobDoc, b: JobBody, images: seq<string>, parseDate: string -> Option<int>)
    ensures var m := MergeJob(j, b, images, parseDate);
            && m.userId == j.userId && m.uniqueNumber == j.uniqueNumber
            && (m.title != j.title ==> Given(b.title))
            && (m.description != j.description ==> Given(b.description))
            && (m.category != j.category ==> Given(b.category))
            && (m.postCode != j.postCode ==> Given(b.postCode))
            && (m.address != j.address ==> Given(b.address))
            && (m.budgetMin != j.budgetMin ==> b.budgetMin != Undefined)
            && (m.budgetMax != j.budgetMax ==> b.budgetMax != Undefined)
            && (m.urgency != j.urgency ==> Given(b.urgency))
            && (m.preferredDate != j.preferredDate ==> Given(b.preferredDate))
  {
  }

  /** An empty body with the stored images gives back the stored record. */
  lemma MergeEmptyIsIdentity(j: JobDoc, parseDate: string -> Option<int>)
    ensures MergeJob(j, EmptyBody, j.images, parseDate) == j
  {
  }

  /** Sending the same update twice stores what sending it once stores. */
  lemma MergeIdempotent(j: JobDoc, b: JobBody, images: seq<string>, parseDate: string -> Option<int>)
    ensures MergeJob(MergeJob(j, b, images, parseDate), b, images, parseDate) == MergeJob(j, b, images, parseDate)
  {
  }

  /**
    The two fallbacks differ on falsy values: an empty title keeps the stored
    title, but a budget of 0 or `null` replaces the stored budget.
  */
  lemma FalsyValuesMergeDifferently(j: JobDoc, b: JobBody, images: seq<string>, parseDate: string -> Option<int>)
    requires b.title == Some("") && b.budgetMin == Num(0.0) && b.budgetMax == Null
    ensures MergeJob(j, b, images, parseDate).title == j.title
    ensures MergeJob(j, b, images, parseDate).budgetMin == Num(0.0)
    ensures MergeJob(j, b, images, parseDate).budgetMax == Null
  {
  }

  /**
    The images `updateJob` writes: the hosted URLs when images were given and
    their upload succeeded, the stored ones otherwise.
  */
  function UpdatedImages(j: JobDoc, b: JobBody, upload: UploadResult): seq<string> {
    if b.images.Truthy() then StoredImages(j.images, upload) else j.images
  }

  /** The warnings of an update that passed its checks, in the order they are added. */
  function UpdateWarnings(j: JobDoc, b: JobBody, upload: UploadResult, geoError: Option<string>): seq<string> {
    (if b.images.Truthy() && upload.UploadFailed? then [upload.message] else [])
    + (if Given(b.address) && b.address.value != j.address && geoError.Some?
       then [AddressWarning(geoError.value)] else [])
    + (if Given(b.postCode) && b.postCode.value != j.postCode && !PostcodeShaped(b.postCode.value)
       then [PostcodeWarning] else [])
  }

  /**
    `updateJob`: 404 when the job does not exist, then 403 unless the actor
    owns it, then the checks on the given fields. Given images are uploaded
    and replace the stored ones only when the upload succeeds (otherwise a
    warning); a new address that fails geocoding and a new postcode of
    neither shape each add a warning. The merged record is then written
    through the update validators (`ctx` is what `this` is inside them); a
    refusal is a server error.
  */
  method UpdateJob(stored: Option<JobDoc>, actor: Credentials.Claims, body: JobBody, parseDate: string -> Option<int>,
                   geocode: string -> Option<string>, upload: UploadResult, ctx: UpdateThis)
    returns (r: Result<JobDoc, JobReason>, warnings: seq<string>)
    ensures stored.None? ==> r == Failure(NotFound)
    ensures stored.Some? && stored.value.userId != actor.id ==> r == Failure(NotOwner)
    ensures stored.Some? && stored.value.userId == actor.id ==>
              var first := FirstFailure(UpdateJobChecks(body, parseDate));
              var merged := MergeJob(stored.value, body, UpdatedImages(stored.value, body, upload), parseDate);
              && (first.Some? ==> r == Failure(first.value))
              && (first.None? ==> (r.Success? <==> UpdateValidatorsPass(merged, ctx)))
              && (first.None? && !UpdateValidatorsPass(merged, ctx) ==> r == Failure(ServerError))
    ensures r.Failure? ==> warnings == []
    ensures r.Success? ==>
              var j := stored.value;
              && r.value == MergeJob(j, body, UpdatedImages(j, body, upload), parseDate)
              && (body.images.Truthy() ==> body.images.Array? && 1 <= |body.images.items| <= 5)
              && UpdateValidatorsPass(r.value, ctx)
    ensures r.Success? ==>
              warnings == UpdateWarnings(stored.value, body, upload, geocode(CountryFor(ClaimedUserType(actor))))
  {
    if stored.None? {
      return Failure(NotFound), [];
    }
    var job := stored.value;
    if job.userId != actor.id {
      return Failure(NotOwner), [];
    }
    var checks := UpdateJobChecks(body, parseDate);
    var first := FirstFailure(checks);
    if first.Some? {
      return Failure(first.value), [];
    }
    assert !checks[2].failed;
    var geoError := geocode(CountryFor(ClaimedUserType(actor)));
    var updatedImageUrls;
    updatedImageUrls, warnings := UpdateSideEffects(job, body, upload, geoError);
    var merged := MergeJob(job, body, updatedImageUrls, parseDate);
    if UpdateValidatorsPass(merged, ctx) {
      r := Success(merged);
    } else {
      r := Failure(ServerError);
      warnings := [];
    }
  }

  /**
    The uploads and the non-blocking checks of an update that passed its
    guard chain: the images to write and the warnings collected.
  */
  method UpdateSideEffects(job: JobDoc, body: JobBody, upload: UploadResult, geoError: Option<string>)
    returns (updatedImageUrls: seq<string>, warnings: seq<string>)
    requires body.images.Truthy() ==> body.images.Array? && 1 <= |body.images.items| <= 5
    ensures updatedImageUrls == UpdatedImages(job, body, upload)
    ensures warnings == UpdateWarnings(job, body, upload, geoError)
  {
    ghost var w1: seq<string> := if body.images.Truthy() && upload.UploadFailed? then [upload.message] else [];
    ghost var w2: seq<string> := if Given(body.address) && body.address.value != job.address && geoError.Some?
                                 then [AddressWarning(geoError.value)] else [];
    ghost var w3: seq<string> := if Given(body.postCode) && body.postCode.value != job.postCode
                                    && !PostcodeShaped(body.postCode.value)
                                 then [PostcodeWarning] else [];
    warnings := [];
    updatedImageUrls := job.images;
    if body.images.Truthy() && |body.images.items| > 0 {
      if upload.UploadFailed? {
        warnings := warnings + [upload.message];
      } else {
        updatedImageUrls := upload.urls;
      }
    }
    assert warnings == w1;
    if Given(body.address) && body.address.value != job.address {
      if geoError.Some? {
        var w := AddressWarning(geoError.value);
        warnings := warnings + [w];
      }
    }
    assert warnings == w1 + w2;
    if Given(body.postCode) && body.postCode.value != job.postCode {
      if !PostcodeShaped(body.postCode.value) {
        warnings := warnings + [PostcodeWarning];
      }
    }
    assert warnings == w1 + w2 + w3;
  }

  /**
    When `this` is null in the update validators, every update that writes a
    maximum budget, given in the body or kept from the record, is refused.
  */
  lemma NullThisRefusesMaximum(j: JobDoc, b: JobBody, images: seq<string>, parseDate: string -> Option<int>)
    requires b.budgetMax != Undefined || j.budgetMax != Undefined
    ensures !UpdateValidatorsPass(MergeJob(j, b, images, parseDate), NullThis)
  {
  }

  /**
    When `this` is the query object, the update never compares the budgets:
    a new maximum below the stored minimum passes the controller (which
    compares only budgets given together) and the update validators, and the
    stored record then breaks the rule `save()` enforces.
  */
  lemma UpdateCanBreakBudgetOrder(j: JobDoc, parseDate: string -> Option<int>)
    requires ValidJob(j) && j.budgetMin == Num(10.0)
    ensures var b := EmptyBody.(budgetMax := Num(5.0));
            var m := MergeJob(j, b, j.images, parseDate);
            && FirstFailure(UpdateJobChecks(b, parseDate)).None?
            && UpdateValidatorsPass(m, QueryObject)
            && !ValidJob(m)
  {
    var b := EmptyBody.(budgetMax := Num(5.0));
    var checks := UpdateJobChecks(b, parseDate);
    assert forall k :: 0 <= k < |checks| ==> !checks[k].failed;
    assert !BudgetMaxAccepted(MergeJob(j, b, j.images, parseDate));
  }

  // ---------------------------------------------------------------------------
  // deleteJob and getJobsByUser

  /** `deleteJob` on the stored jobs by id: 404 before 403, and then exactly that job is gone. */
  function DeleteJob(jobs: map<string, JobDoc>, jobId: string, actorId: UserId): (r: Result<map<string, JobDoc>, JobReason>)
    ensures r == Failure(NotFound) <==> jobId !in jobs
    ensures r == Failure(NotOwner) <==> jobId in jobs && jobs[jobId].userId != actorId
    ensures r.Success? <==> jobId in jobs && jobs[jobId].userId == actorId
    ensures r.Success? ==> jobId !in r.value && r.value.Keys == jobs.Keys - {jobId}
    ensures r.Success? ==> forall k :: k in r.value ==> r.value[k] == jobs[k]
  {
    if jobId !in jobs then Failure(NotFound)
    else if jobs[jobId].userId != actorId then Failure(NotOwner)
    else Success(jobs - {jobId})
  }

  /** `getJobsByUser`: only for oneself, then the jobs that user owns. */
  function JobsByUser(actorId: UserId, userId: UserId, jobs: seq<JobDoc>): (r: Result<seq<JobDoc>, JobReason>)
    ensures r.Failure? <==> actorId != userId
    ensures r.Failure? ==> r.error == OtherUser
    ensures r.Success? ==> forall k :: 0 <= k < |r.value| ==> r.value[k].userId == userId && r.value[k] in jobs
    ensures r.Success? ==> forall k :: 0 <= k < |jobs| && jobs[k].userId == userId ==> jobs[k] in r.value
  {
    if actorId != userId then Failure(OtherUser)
    else Success(Where(jobs, (j: JobDoc) => j.userId == userId))
  }
}

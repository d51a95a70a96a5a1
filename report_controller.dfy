/**
  The report handlers. Each handler is a chain of early returns (a list of
  checks, the first failing one answers) followed by a small change to the
  stored report, which `save()` then validates against the schema. The pure
  step functions say what each handler answers and what the record becomes;
  the methods perform the same change in place on a `Report` object.

  The database lookups are parameters: a handler receives the report that
  `findById` returned (`null` when there is none) and the acting user's
  record. Email, sockets and uploads are outcomes passed in.
*/
module ReportController {
  import opened Basics
  import opened Text
  import opened ReportSchema
  import opened UserSchema
  import Credentials

  /** Why a handler answers with an error, and the HTTP status it answers with. */
  datatype Reason =
    | NotVerified(emailSent: bool)
    | MissingFields | DescriptionTooLong | BadImages | BadVideos | NegativeMileage
    | BadContactEmail | BadUrgency | BadCarYear
    | NotFound | NotSpecialist | BadQuotation | ReasonTooLong
    | NotOwner | NotPending | MissingAppointment | BadDate | QuotationNotFound
    | NotInProgress
    | NotCompleted | NotParticipant | BadRating | CommentTooLong | BadTarget
    | OtherUser
    | ServerError
  {
    function Code(): nat {
      if NotVerified? || NotSpecialist? || NotOwner? || NotParticipant? || OtherUser? then 403
      else if NotFound? || QuotationNotFound? then 404
      else if ServerError? then 500
      else 400
    }
  }

  /** The controller's own list of urgencies, which differs from the schema's enum. */
  const ControllerUrgencies: seq<string> := ["urgent", "normal", "flexible"]

  // ---------------------------------------------------------------------------
  // the stored record

  class Report {
    const info: ReportInfo
    var images: seq<string>
    var videos: seq<string>
    var status: Status
    var quotations: seq<Quotation>
    var selectedQuotation: Option<UserId>
    var appointment: Option<Appointment>
    var reviews: seq<Review>

    function Doc(): ReportDoc
      reads this
    {
      ReportDoc(info, images, videos, status, quotations, selectedQuotation, appointment, reviews)
    }

    constructor (d: ReportDoc)
      ensures Doc() == d
    {
      info := d.info;
      images := d.images;
      videos := d.videos;
      status := d.status;
      quotations := d.quotations;
      selectedQuotation := d.selectedQuotation;
      appointment := d.appointment;
      reviews := d.reviews;
    }

    /**
      The scheduled transition: when the appointment comes, the status is set
      to in-progress, whatever it is at that moment.
    */
    method Fire()
      modifies this
      ensures Doc() == old(Doc()).(status := InProgress)
    {
      status := InProgress;
    }
  }

  // ---------------------------------------------------------------------------
  // createReport

  datatype ReportBody = ReportBody(
    carMaker: Option<string>,
    carModel: Option<string>,
    carYear: Option<real>,
    issueType: Option<string>,
    description: Option<string>,
    images: ArrayField,
    videos: ArrayField,
    mileage: Option<real>,
    contactEmail: Option<string>,
    carMakeOther: Option<string>,
    locationOther: Option<string>,
    urgency: Option<string>,
    location: Option<string>)

  /**
    The checks of `createReport`, in order; `year` is the current year when
    the request is handled.
  */
  function CreateChecks(actor: UserDoc, emailSent: bool, b: ReportBody, year: int): seq<Check<Reason>> {
    [ Check(!actor.isVerified, NotVerified(emailSent)),
      Check(|| !Given(b.carMaker) || !Given(b.carModel) || !NumGiven(b.carYear) || !Given(b.issueType)
            || !Given(b.description) || !b.images.Truthy() || !Given(b.urgency) || !Given(b.location),
            MissingFields),
      Check(Length(b.description) > 2000, DescriptionTooLong),
      Check(!b.images.Array? || |b.images.items| < 1 || |b.images.items| > 5, BadImages),
      Check(b.videos.Truthy() && (!b.videos.Array? || |b.videos.items| > 5), BadVideos),
      Check(NumGiven(b.mileage) && b.mileage.value < 0.0, NegativeMileage),
      Check(Given(b.contactEmail) && !Credentials.ValidateEmail(b.contactEmail.value).isValid, BadContactEmail),
      Check(b.urgency.None? || b.urgency.value !in ControllerUrgencies, BadUrgency),
      Check(b.carYear.Some? && (b.carYear.value < 1900.0 || b.carYear.value > (year + 1) as real), BadCarYear) ]
  }

  predicate CreateChecksPass(actor: UserDoc, emailSent: bool, b: ReportBody, year: int) {
    FirstFailure(CreateChecks(actor, emailSent, b, year)).None?
  }

  /** The record `new Report({...})` builds from a body that passed the checks. */
  function NewReportDoc(owner: UserId, b: ReportBody): ReportDoc
    requires Given(b.carMaker) && Given(b.carModel) && b.carYear.Some? && Given(b.issueType)
    requires Given(b.description) && b.images.Array? && Given(b.urgency) && Given(b.location)
    requires b.videos.Truthy() ==> b.videos.Array?
  {
    var info := ReportInfo(
      Trim(b.carMaker.value), Trim(b.carModel.value), b.carYear.value, Trim(b.issueType.value),
      Trim(b.description.value), b.mileage, TrimmedOpt(b.contactEmail),
      if Given(b.carMakeOther) then Some(Trim(b.carMakeOther.value)) else None,
      if Given(b.locationOther) then Some(Trim(b.locationOther.value)) else None,
      b.urgency.value, Trim(b.location.value), owner);
    ReportDoc(info, b.images.items, if b.videos.Truthy() then b.videos.items else [], Pending, [], None, None, [])
  }

  /** What a body that passed every check of `createReport` is known to hold. */
  lemma PassedChecks(actor: UserDoc, emailSent: bool, b: ReportBody, year: int)
    requires CreateChecksPass(actor, emailSent, b, year)
    ensures actor.isVerified
    ensures Given(b.carMaker) && Given(b.carModel) && b.carYear.Some? && Given(b.issueType)
    ensures Given(b.description) && Given(b.urgency) && Given(b.location)
    ensures b.images.Array? && 1 <= |b.images.items| <= 5
    ensures Length(b.description) <= 2000
    ensures b.videos.Truthy() ==> b.videos.Array? && |b.videos.items| <= 5
    ensures Given(b.contactEmail) ==> Credentials.ValidateEmail(b.contactEmail.value).isValid
    ensures b.urgency.value in ControllerUrgencies
    ensures 1900.0 <= b.carYear.value <= (year + 1) as real
  {
    var checks := CreateChecks(actor, emailSent, b, year);
    assert !checks[0].failed && !checks[1].failed && !checks[2].failed && !checks[3].failed;
    assert !checks[4].failed && !checks[6].failed && !checks[7].failed && !checks[8].failed;
  }

  /**
    What `createReport` answers: the first failing check, or the new record,
    or a server error when the record the checks let through fails the
    schema (`bootYear` is the year when the server started).
  */
  function CreateReportStep(actor: UserDoc, emailSent: bool, b: ReportBody, year: int, bootYear: int): (r: Result<ReportDoc, Reason>)
    ensures !actor.isVerified ==> r == Failure(NotVerified(emailSent))
    ensures actor.isVerified && (!Given(b.carMaker) || !Given(b.description) || !Given(b.urgency) || !b.images.Truthy())
            ==> r == Failure(MissingFields)
    ensures r.Failure? && r.error != ServerError ==> FirstFailure(CreateChecks(actor, emailSent, b, year)) == Some(r.error)
    ensures r == Failure(ServerError) ==> CreateChecksPass(actor, emailSent, b, year)
    ensures r.Success? ==> CreateChecksPass(actor, emailSent, b, year) && b.urgency == Some("urgent")
    ensures r.Success? ==> b.images.Array? && (b.videos.Truthy() ==> b.videos.Array?)
    ensures r.Success? ==>
              && r.value.status == Pending
              && r.value.info.userId == actor.id
              && r.value.images == b.images.items
              && r.value.videos == (if b.videos.Truthy() then b.videos.items else [])
              && r.value.quotations == [] && r.value.reviews == []
              && r.value.selectedQuotation.None? && r.value.appointment.None?
              && ValidDoc(r.value, bootYear)
    ensures r.Success? ==>
              && Given(b.carMaker) && Given(b.carModel) && b.carYear.Some? && Given(b.issueType)
              && Given(b.description) && Given(b.location)
              && r.value.info.carMaker == Trim(b.carMaker.value)
              && r.value.info.carModel == Trim(b.carModel.value)
              && r.value.info.carYear == b.carYear.value
              && r.value.info.issueType == Trim(b.issueType.value)
              && r.value.info.description == Trim(b.description.value)
              && r.value.info.mileage == b.mileage
              && r.value.info.contactEmail == TrimmedOpt(b.contactEmail)
              && r.value.info.carMakeOther == (if Given(b.carMakeOther) then Some(Trim(b.carMakeOther.value)) else None)
              && r.value.info.locationOther == (if Given(b.locationOther) then Some(Trim(b.locationOther.value)) else None)
              && r.value.info.urgency == "urgent"
              && r.value.info.location == Trim(b.location.value)
  {
    var checks := CreateChecks(actor, emailSent, b, year);
    EarlyCreateFailures(actor, emailSent, b, year);
    match FirstFailure(checks)
    case Some(e) => Failure(e)
    case None =>
      PassedChecks(actor, emailSent, b, year);
      var d := NewReportDoc(actor.id, b);
      if ValidDoc(d, bootYear) then
        UrgentOnlyCommon(b.urgency.value);
        Success(d)
      else Failure(ServerError)
  }

  /** The first two checks of `createReport` win over every later one, and no check answers with a server error. */
  lemma EarlyCreateFailures(actor: UserDoc, emailSent: bool, b: ReportBody, year: int)
    ensures !actor.isVerified ==> FirstFailure(CreateChecks(actor, emailSent, b, year)) == Some(NotVerified(emailSent))
    ensures actor.isVerified && (!Given(b.carMaker) || !Given(b.description) || !Given(b.urgency) || !b.images.Truthy())
            ==> FirstFailure(CreateChecks(actor, emailSent, b, year)) == Some(MissingFields)
    ensures FirstFailure(CreateChecks(actor, emailSent, b, year)) != Some(ServerError)
  {
    var checks := CreateChecks(actor, emailSent, b, year);
    if !checks[0].failed && checks[1].failed {
      FirstFailureIs(checks, 1);
    }
    if FirstFailure(checks).Some? {
      var k :| 0 <= k < |checks| && checks[k].failed && checks[k].reason == FirstFailure(checks).value;
      assert forall j :: 0 <= j < |checks| ==> checks[j].reason != ServerError;
    }
  }

  /** "urgent" is the one urgency both the controller's list and the schema's enum hold. */
  lemma UrgentOnlyCommon(u: string)
    ensures u in ControllerUrgencies && u in SchemaUrgencies <==> u == "urgent"
  {
  }

  /**
    An urgency of "normal" or "flexible" passes the controller's list but not
    the schema's enum: the request ends in a server error, never in a report.
  */
  lemma OtherUrgenciesNeverCreate(actor: UserDoc, emailSent: bool, b: ReportBody, year: int, bootYear: int)
    requires CreateChecksPass(actor, emailSent, b, year)
    requires b.urgency == Some("normal") || b.urgency == Some("flexible")
    ensures CreateReportStep(actor, emailSent, b, year, bootYear) == Failure(ServerError)
  {
    var checks := CreateChecks(actor, emailSent, b, year);
    assert !checks[1].failed && !checks[3].failed && !checks[4].failed;
    assert NewReportDoc(actor.id, b).info.urgency !in SchemaUrgencies;
  }

  /** A required field made only of white space passes the truthiness check and fails `required` after trimming. */
  lemma BlankMakerIsServerError(actor: UserDoc, emailSent: bool, b: ReportBody, year: int, bootYear: int)
    requires CreateChecksPass(actor, emailSent, b, year)
    requires b.carMaker.Some? && AllSpace(b.carMaker.value)
    ensures CreateReportStep(actor, emailSent, b, year, bootYear) == Failure(ServerError)
  {
    var checks := CreateChecks(actor, emailSent, b, year);
    assert !checks[1].failed && !checks[3].failed && !checks[4].failed;
    BlankIffAllSpace(b.carMaker.value);
  }

  /**
    The controller bounds `carYear` by the current year, the schema by the
    year the server started: after a new year without a restart, next year's
    models pass the controller and fail the schema.
  */
  lemma StaleYearBound(actor: UserDoc, emailSent: bool, b: ReportBody, year: int, bootYear: int)
    requires CreateChecksPass(actor, emailSent, b, year)
    requires bootYear < year && b.carYear == Some((year + 1) as real)
    ensures CreateReportStep(actor, emailSent, b, year, bootYear) == Failure(ServerError)
  {
    var checks := CreateChecks(actor, emailSent, b, year);
    assert !checks[1].failed && !checks[3].failed && !checks[4].failed;
  }

  /** A body that meets the schema's demands gives a valid new record. */
  lemma NewDocValid(owner: UserId, b: ReportBody, bootYear: int)
    requires owner != "" && b.urgency == Some("urgent")
    requires b.carMaker.Some? && !AllSpace(b.carMaker.value)
    requires b.carModel.Some? && !AllSpace(b.carModel.value)
    requires b.issueType.Some? && !AllSpace(b.issueType.value)
    requires b.description.Some? && !AllSpace(b.description.value) && |b.description.value| <= 2000
    requires b.location.Some? && !AllSpace(b.location.value)
    requires b.carYear.Some? && 1900.0 <= b.carYear.value <= (bootYear + 1) as real
    requires b.images.Array? && 1 <= |b.images.items| <= 5
    requires b.videos.Truthy() ==> b.videos.Array? && |b.videos.items| <= 5
    requires b.mileage.Some? ==> b.mileage.value >= 0.0
    ensures ValidDoc(NewReportDoc(owner, b), bootYear)
  {
    BlankIffAllSpace(b.carMaker.value);
    BlankIffAllSpace(b.carModel.value);
    BlankIffAllSpace(b.issueType.value);
    BlankIffAllSpace(b.description.value);
    BlankIffAllSpace(b.location.value);
  }

  /**
    The converse: a verified author, checks passed, urgency "urgent", no blank
    required field, and a year within the schema's bound give a new report.
  */
  lemma UrgentReportCreated(actor: UserDoc, emailSent: bool, b: ReportBody, year: int, bootYear: int)
    requires CreateChecksPass(actor, emailSent, b, year)
    requires b.urgency == Some("urgent") && actor.id != ""
    requires b.carMaker.Some? && !AllSpace(b.carMaker.value)
    requires b.carModel.Some? && !AllSpace(b.carModel.value)
    requires b.issueType.Some? && !AllSpace(b.issueType.value)
    requires b.description.Some? && !AllSpace(b.description.value)
    requires b.location.Some? && !AllSpace(b.location.value)
    requires b.carYear.Some? && b.carYear.value <= (bootYear + 1) as real
    ensures CreateReportStep(actor, emailSent, b, year, bootYear).Success?
  {
    var checks := CreateChecks(actor, emailSent, b, year);
    assert !checks[1].failed && !checks[2].failed && !checks[3].failed && !checks[4].failed;
    assert !checks[5].failed && !checks[8].failed;
    NewDocValid(actor.id, b, bootYear);
  }

  function GeocodeWarning(message: string): string {
    "Location geocoding failed: " + message + ". Location saved but may need verification."
  }

  /**
    `createReport`: on success a new stored report and the warnings of the
    201 response (only a geocoding failure, `geocodeError`, adds one before
    the response is sent).
  */
  method CreateReport(actor: UserDoc, emailSent: bool, body: ReportBody, year: int, bootYear: int,
                      geocodeError: Option<string>)
    returns (r: Result<Report, Reason>, warnings: seq<string>)
    ensures var step := CreateReportStep(actor, emailSent, body, year, bootYear);
            && (step.Failure? ==> r == Failure(step.error) && warnings == [])
            && (step.Success? ==> r.Success? && fresh(r.value) && r.value.Doc() == step.value)
    ensures r.Success? && geocodeError.Some? ==> warnings == [GeocodeWarning(geocodeError.value)]
    ensures r.Success? && geocodeError.None? ==> warnings == []
  {
    var step := CreateReportStep(actor, emailSent, body, year, bootYear);
    if step.Failure? {
      return Failure(step.error), [];
    }
    warnings := [];
    if geocodeError.Some? {
      var w := GeocodeWarning(geocodeError.value);
      warnings := [w];
    }
    var report := new Report(step.value);
    r := Success(report);
  }

  /**
    The media step after creation: each kind whose upload succeeded takes the
    hosted URLs, each failed upload leaves that kind as it was and adds its
    message to the warnings. The videos are uploaded only when the report
    holds some (`videos && videos.length > 0`); otherwise `videoUpload` plays
    no part. Nothing else in the record changes.
  */
  function MediaStep(d: ReportDoc, imageUpload: UploadResult, videoUpload: Option<UploadResult>): (r: (ReportDoc, seq<string>))
    ensures r.0.images == if imageUpload.Uploaded? then imageUpload.urls else d.images
    ensures r.0.videos == if d.videos != [] && videoUpload.Some? && videoUpload.value.Uploaded? then videoUpload.value.urls else d.videos
    ensures d.videos == [] ==> r.0.videos == []
    ensures r.0.(images := d.images, videos := d.videos) == d
    ensures |r.1| == (if imageUpload.UploadFailed? then 1 else 0)
                     + (if d.videos != [] && videoUpload.Some? && videoUpload.value.UploadFailed? then 1 else 0)
  {
    var videoResult := if d.videos != [] then videoUpload else None;
    var images := if imageUpload.Uploaded? then imageUpload.urls else d.images;
    var videos := if videoResult.Some? && videoResult.value.Uploaded? then videoResult.value.urls else d.videos;
    var w1 := if imageUpload.UploadFailed? then [imageUpload.message] else [];
    var w2 := if videoResult.Some? && videoResult.value.UploadFailed? then [videoResult.value.message] else [];
    (d.(images := images, videos := videos), w1 + w2)
  }

  /**
    A report created without videos uploads none: whatever `videoUpload`
    holds, the record and the warnings are those of no video upload at all.
  */
  lemma VideolessReportIgnoresVideoUpload(d: ReportDoc, imageUpload: UploadResult, videoUpload: Option<UploadResult>)
    requires d.videos == []
    ensures MediaStep(d, imageUpload, videoUpload) == MediaStep(d, imageUpload, None)
    ensures MediaStep(d, imageUpload, videoUpload).0.videos == []
  {
  }

  /** When every upload fails the record is left exactly as it was. */
  lemma FailedUploadsChangeNothing(d: ReportDoc, m1: string, videoUpload: Option<UploadResult>)
    requires videoUpload.None? || videoUpload.value.UploadFailed?
    ensures MediaStep(d, UploadFailed(m1), videoUpload).0 == d
  {
  }

  /**
    Reconciling the uploads in place. The record is saved afterwards; when the
    new URLs break the schema the save fails, is only logged, and the stored
    record keeps its old media. The warnings come back after the 201 response
    has already been sent.
  */
  method ReconcileMedia(report: Report, imageUpload: UploadResult, videoUpload: Option<UploadResult>, bootYear: int)
    returns (lateWarnings: seq<string>)
    modifies report
    ensures var step := MediaStep(old(report.Doc()), imageUpload, videoUpload);
            && lateWarnings == step.1
            && report.Doc() == if ValidDoc(step.0, bootYear) then step.0 else old(report.Doc())
  {
    var step := MediaStep(report.Doc(), imageUpload, videoUpload);
    lateWarnings := [];
    var images := report.images;
    var videos := report.videos;
    if imageUpload.Uploaded? {
      images := imageUpload.urls;
    } else {
      lateWarnings := lateWarnings + [imageUpload.message];
    }
    if videos != [] && videoUpload.Some? {
      if videoUpload.value.Uploaded? {
        videos := videoUpload.value.urls;
      } else {
        lateWarnings := lateWarnings + [videoUpload.value.message];
      }
    }
    if ValidDoc(step.0, bootYear) {
      report.images := images;
      report.videos := videos;
    }
  }

  // ---------------------------------------------------------------------------
  // submitQuotation

  datatype QuotationBody = QuotationBody(amount: Option<real>, duration: Option<string>, reasonForFault: Option<string>)

  function QuotationChecks(actor: UserDoc, b: QuotationBody): seq<Check<Reason>> {
    [ Check(actor.userType != Specialist, NotSpecialist),
      Check(!NumGiven(b.amount) || b.amount.value < 0.0 || !Given(b.duration) || !Given(b.reasonForFault), BadQuotation),
      Check(Length(b.reasonForFault) > 1000, ReasonTooLong) ]
  }

  /**
    What `submitQuotation` does to a report that exists: only a specialist
    may quote; the amount must be truthy and not negative (so 0 is refused),
    duration and reason present, the reason at most 1000 characters. Then one
    quotation by the actor is appended, whatever the report's status and
    whatever quotations it already holds.
  */
  function QuotationStep(d: ReportDoc, actor: UserDoc, b: QuotationBody, bootYear: int): (r: Result<ReportDoc, Reason>)
    ensures actor.userType != Specialist ==> r == Failure(NotSpecialist)
    ensures var first := FirstFailure(QuotationChecks(actor, b));
            && (first.Some? ==> r == Failure(first.value))
            && (r.Failure? && r.error != ServerError ==> first == Some(r.error))
    ensures r.Success? ==>
              && b.amount.Some? && b.amount.value > 0.0 && Given(b.duration) && Given(b.reasonForFault)
              && |b.reasonForFault.value| <= 1000
              && r.value == d.(quotations := d.quotations
                                 + [Quotation(actor.id, b.amount.value, b.duration.value, b.reasonForFault.value)])
              && ValidDoc(r.value, bootYear)
    ensures ValidDoc(d, bootYear) && actor.id != "" ==>
              (r.Success? <==> && actor.userType == Specialist
                               && b.amount.Some? && b.amount.value > 0.0
                               && Given(b.duration) && Given(b.reasonForFault)
                               && |b.reasonForFault.value| <= 1000)
  {
    var checks := QuotationChecks(actor, b);
    match FirstFailure(checks)
    case Some(e) => Failure(e)
    case None =>
      assert !checks[0].failed && !checks[1].failed && !checks[2].failed;
      var q := Quotation(actor.id, b.amount.value, b.duration.value, b.reasonForFault.value);
      var d' := d.(quotations := d.quotations + [q]);
      assert ValidDoc(d, bootYear) && actor.id != "" ==> ValidDoc(d', bootYear) by {
        if ValidDoc(d, bootYear) && actor.id != "" {
          AppendKeepsValid(d, q, Review("", 0.0, None), bootYear);
        }
      }
      if ValidDoc(d', bootYear) then Success(d') else Failure(ServerError)
  }

  /** The same quotation sent twice is stored twice: nothing removes duplicates. */
  lemma QuotationsNotDeduplicated(d: ReportDoc, actor: UserDoc, b: QuotationBody, bootYear: int)
    requires QuotationStep(d, actor, b, bootYear).Success?
    ensures var d1 := QuotationStep(d, actor, b, bootYear).value;
            var r2 := QuotationStep(d1, actor, b, bootYear);
            && r2.Success?
            && |r2.value.quotations| == |d.quotations| + 2
            && r2.value.quotations[|d.quotations|] == r2.value.quotations[|d.quotations| + 1]
  {
    var d1 := QuotationStep(d, actor, b, bootYear).value;
    assert ValidQuotation(d1.quotations[|d1.quotations| - 1]);
  }

  /** The status plays no part: a quotation is accepted in every status alike. */
  lemma QuotationIgnoresStatus(d: ReportDoc, st: Status, actor: UserDoc, b: QuotationBody, bootYear: int)
    ensures QuotationStep(d.(status := st), actor, b, bootYear).Success? == QuotationStep(d, actor, b, bootYear).Success?
  {
  }

  /** `submitQuotation`: 404 when the report does not exist, before anything about the actor is looked at. */
  method SubmitQuotation(report: Report?, actor: UserDoc, body: QuotationBody, bootYear: int) returns (r: Outcome<Reason>)
    modifies report
    ensures report == null ==> r == Fail(NotFound)
    ensures report != null ==>
              var step := QuotationStep(old(report.Doc()), actor, body, bootYear);
              && (step.Failure? ==> r == Fail(step.error) && report.Doc() == old(report.Doc()))
              && (step.Success? ==> r == Pass && report.Doc() == step.value)
  {
    if report == null {
      return Fail(NotFound);
    }
    var step := QuotationStep(report.Doc(), actor, body, bootYear);
    if step.Failure? {
      return Fail(step.error);
    }
    report.quotations := report.quotations
                         + [Quotation(actor.id, body.amount.value, body.duration.value, body.reasonForFault.value)];
    r := Pass;
  }

  // ---------------------------------------------------------------------------
  // acceptQuotation and the scheduled transition

  predicate HasQuotationFrom(qs: seq<Quotation>, specialistId: UserId) {
    exists k :: 0 <= k < |qs| && qs[k].specialistId == specialistId
  }

  function AcceptChecks(d: ReportDoc, actorId: UserId, specialistId: UserId, date: Option<string>,
                        time: Option<string>, parseDate: string -> Option<int>): seq<Check<Reason>> {
    [ Check(d.info.userId != actorId, NotOwner),
      Check(d.status != Pending, NotPending),
      Check(!Given(date) || !Given(time), MissingAppointment),
      Check(date.Some? && parseDate(date.value).None?, BadDate),
      Check(!HasQuotationFrom(d.quotations, specialistId), QuotationNotFound) ]
  }

  /** An accepted quotation and, when one is armed, the delay until the in-progress transition. */
  datatype Acceptance = Acceptance(doc: ReportDoc, timer: Option<int>)

  /** The longest delay `setTimeout` honours, in milliseconds; a longer one is run after 1 ms. */
  const MaxTimerDelay := 0x7FFF_FFFF

  /**
    The timer: the appointment instant is read from `date + "T" + time + ":00"`
    (`parseDate` stands for `Date.parse`, `None` for NaN) and a timer is armed
    only for a positive delay from `now`. The result is the delay after which
    the timer actually runs: the delay asked for, or 1 ms when it is longer
    than `setTimeout` allows.
  */
  function TimerDelay(parseDate: string -> Option<int>, date: string, time: string, now: int): (t: Option<int>)
    ensures var at := parseDate(date + "T" + time + ":00");
            && (t.Some? <==> at.Some? && at.value > now)
            && (t.Some? ==> 1 <= t.value <= MaxTimerDelay)
            && (t.Some? && at.value - now <= MaxTimerDelay ==> now + t.value == at.value)
            && (t.Some? && at.value - now > MaxTimerDelay ==> t.value == 1)
  {
    var at := parseDate(date + "T" + time + ":00");
    if at.Some? && at.value - now > 0 then
      var delay := at.value - now;
      Some(if delay > MaxTimerDelay then 1 else delay)
    else None
  }

  /**
    An appointment more than about 24.8 days ahead is not waited for: the
    timer runs almost at once and the report turns in-progress right away.
  */
  lemma FarAppointmentFiresAtOnce(parseDate: string -> Option<int>, date: string, time: string, now: int)
    requires parseDate(date + "T" + time + ":00").Some?
    requires parseDate(date + "T" + time + ":00").value > now + MaxTimerDelay
    ensures TimerDelay(parseDate, date, time, now) == Some(1)
  {
  }

  /**
    What `acceptQuotation` does to a report that exists: owner, pending,
    date and time present, the date parses, the specialist has quoted; then
    exactly `selectedQuotation`, `appointment` and `status` change.
  */
  function AcceptStep(d: ReportDoc, actorId: UserId, specialistId: UserId, date: Option<string>, time: Option<string>,
                      parseDate: string -> Option<int>, now: int, bootYear: int): (r: Result<Acceptance, Reason>)
    ensures d.info.userId != actorId ==> r == Failure(NotOwner)
    ensures d.info.userId == actorId && d.status != Pending ==> r == Failure(NotPending)
    ensures var first := FirstFailure(AcceptChecks(d, actorId, specialistId, date, time, parseDate));
            && (first.Some? ==> r == Failure(first.value))
            && (r.Failure? && r.error != ServerError ==> first == Some(r.error))
    ensures r.Success? ==>
              && Given(date) && Given(time) && parseDate(date.value).Some?
              && HasQuotationFrom(d.quotations, specialistId)
              && r.value.doc == d.(selectedQuotation := Some(specialistId),
                                   appointment := Some(Appointment(parseDate(date.value).value, time.value)),
                                   status := Accepted)
              && r.value.timer == TimerDelay(parseDate, date.value, time.value, now)
              && ValidDoc(r.value.doc, bootYear)
    ensures ValidDoc(d, bootYear) ==>
              (r.Success? <==> && d.info.userId == actorId && d.status == Pending
                               && Given(date) && Given(time) && parseDate(date.value).Some?
                               && HasQuotationFrom(d.quotations, specialistId))
  {
    var checks := AcceptChecks(d, actorId, specialistId, date, time, parseDate);
    assert d.info.userId == actorId && d.status != Pending ==> FirstFailure(checks) == Some(NotPending) by {
      if d.info.userId == actorId && d.status != Pending {
        FirstFailureIs(checks, 1);
      }
    }
    match FirstFailure(checks)
    case Some(e) => Failure(e)
    case None =>
      assert !checks[2].failed && !checks[3].failed && !checks[4].failed;
      var d' := d.(selectedQuotation := Some(specialistId),
                   appointment := Some(Appointment(parseDate(date.value).value, time.value)),
                   status := Accepted);
      if ValidDoc(d', bootYear) then Success(Acceptance(d', TimerDelay(parseDate, date.value, time.value, now)))
      else Failure(ServerError)
  }

  /**
    The later checks of `acceptQuotation` in their order, for the owner of a
    pending report: a missing date or time, then a date that does not parse,
    then a specialist who has not quoted.
  */
  lemma AcceptCheckOrder(d: ReportDoc, actorId: UserId, specialistId: UserId, date: Option<string>, time: Option<string>,
                         parseDate: string -> Option<int>, now: int, bootYear: int)
    requires d.info.userId == actorId && d.status == Pending
    ensures var r := AcceptStep(d, actorId, specialistId, date, time, parseDate, now, bootYear);
            && (!Given(date) || !Given(time) ==> r == Failure(MissingAppointment))
            && (Given(date) && Given(time) && parseDate(date.value).None? ==> r == Failure(BadDate))
            && (Given(date) && Given(time) && parseDate(date.value).Some? && !HasQuotationFrom(d.quotations, specialistId)
                ==> r == Failure(QuotationNotFound))
  {
    var checks := AcceptChecks(d, actorId, specialistId, date, time, parseDate);
    if !Given(date) || !Given(time) {
      FirstFailureIs(checks, 2);
    } else if parseDate(date.value).None? {
      FirstFailureIs(checks, 3);
    } else if !HasQuotationFrom(d.quotations, specialistId) {
      FirstFailureIs(checks, 4);
    }
  }

  /** Once a report has left pending, no second acceptance is possible. */
  lemma SecondAcceptFails(d: ReportDoc, actorId: UserId, specialistId: UserId, date: Option<string>, time: Option<string>,
                          parseDate: string -> Option<int>, now: int, bootYear: int)
    requires d.status != Pending
    ensures AcceptStep(d, actorId, specialistId, date, time, parseDate, now, bootYear).Failure?
  {
  }

  /** An appointment that is not in the future arms no timer. */
  lemma PastAppointmentArmsNothing(parseDate: string -> Option<int>, date: string, time: string, now: int)
    requires parseDate(date + "T" + time + ":00").Some? && parseDate(date + "T" + time + ":00").value <= now
    ensures TimerDelay(parseDate, date, time, now).None?
  {
  }

  /** `acceptQuotation`: the answer, and the delay of the timer it arms. */
  method AcceptQuotation(report: Report?, actorId: UserId, specialistId: UserId, date: Option<string>, time: Option<string>,
                         parseDate: string -> Option<int>, now: int, bootYear: int)
    returns (r: Outcome<Reason>, timer: Option<int>)
    modifies report
    ensures report == null ==> r == Fail(NotFound) && timer.None?
    ensures report != null ==>
              var step := AcceptStep(old(report.Doc()), actorId, specialistId, date, time, parseDate, now, bootYear);
              && (step.Failure? ==> r == Fail(step.error) && timer.None? && report.Doc() == old(report.Doc()))
              && (step.Success? ==> r == Pass && timer == step.value.timer && report.Doc() == step.value.doc)
  {
    if report == null {
      return Fail(NotFound), None;
    }
    var step := AcceptStep(report.Doc(), actorId, specialistId, date, time, parseDate, now, bootYear);
    if step.Failure? {
      return Fail(step.error), None;
    }
    report.selectedQuotation := Some(specialistId);
    report.appointment := Some(Appointment(parseDate(date.value).value, time.value));
    report.status := Accepted;
    timer := TimerDelay(parseDate, date.value, time.value, now);
    r := Pass;
  }

  // ---------------------------------------------------------------------------
  // completeReport

  function CompleteChecks(d: ReportDoc, actorId: UserId): seq<Check<Reason>> {
    [Check(d.info.userId != actorId, NotOwner), Check(d.status != InProgress, NotInProgress)]
  }

  /** What `completeReport` does to a report that exists: the owner moves it from in-progress to completed. */
  function CompleteStep(d: ReportDoc, actorId: UserId, bootYear: int): (r: Result<ReportDoc, Reason>)
    ensures d.info.userId != actorId ==> r == Failure(NotOwner)
    ensures d.info.userId == actorId && d.status != InProgress ==> r == Failure(NotInProgress)
    ensures var first := FirstFailure(CompleteChecks(d, actorId));
            && (first.Some? ==> r == Failure(first.value))
            && (r.Failure? && r.error != ServerError ==> first == Some(r.error))
    ensures r.Success? ==> d.info.userId == actorId && d.status == InProgress && r.value == d.(status := Completed)
    ensures ValidDoc(d, bootYear) ==> (r.Success? <==> d.info.userId == actorId && d.status == InProgress)
  {
    var checks := CompleteChecks(d, actorId);
    assert d.info.userId == actorId && d.status != InProgress ==> FirstFailure(checks) == Some(NotInProgress) by {
      if d.info.userId == actorId && d.status != InProgress {
        FirstFailureIs(checks, 1);
      }
    }
    match FirstFailure(checks)
    case Some(e) => Failure(e)
    case None =>
      assert !checks[0].failed && !checks[1].failed;
      var d' := d.(status := Completed);
      if ValidDoc(d', bootYear) then Success(d') else Failure(ServerError)
  }

  method CompleteReport(report: Report?, actorId: UserId, bootYear: int) returns (r: Outcome<Reason>)
    modifies report
    ensures report == null ==> r == Fail(NotFound)
    ensures report != null ==>
              var step := CompleteStep(old(report.Doc()), actorId, bootYear);
              && (step.Failure? ==> r == Fail(step.error) && report.Doc() == old(report.Doc()))
              && (step.Success? ==> r == Pass && report.Doc() == step.value)
  {
    if report == null {
      return Fail(NotFound);
    }
    var step := CompleteStep(report.Doc(), actorId, bootYear);
    if step.Failure? {
      return Fail(step.error);
    }
    report.status := Completed;
    r := Pass;
  }

  // ---------------------------------------------------------------------------
  // submitReview

  datatype ReviewBody = ReviewBody(rating: Option<real>, comment: Option<string>, targetUserId: Option<string>)

  /**
    The checks of `submitReview`. Where the code calls `toString()` on an
    unset `selectedQuotation` the request fails with a server error.
  */
  function ReviewChecks(d: ReportDoc, actorId: UserId, b: ReviewBody): seq<Check<Reason>> {
    var owner, sel := d.info.userId, d.selectedQuotation;
    [ Check(d.status != Completed, NotCompleted),
      Check(actorId != owner && (sel.None? || actorId != sel.value),
            if sel.None? then ServerError else NotParticipant),
      Check(!NumGiven(b.rating) || b.rating.value < 1.0 || b.rating.value > 5.0, BadRating),
      Check(Given(b.comment) && |b.comment.value| > 500, CommentTooLong),
      Check(!Given(b.targetUserId) || (b.targetUserId.value != owner && (sel.None? || b.targetUserId.value != sel.value)),
            if Given(b.targetUserId) && sel.None? then ServerError else BadTarget) ]
  }

  /** The review the target user's profile receives. */
  function ProfileCopy(actorId: UserId, b: ReviewBody): ProfileReview
    requires b.rating.Some?
  {
    ProfileReview(b.rating.value, TrimmedOpt(b.comment), actorId)
  }

  /** `k` is the first position holding a user with that id. */
  predicate FirstWithId(users: seq<UserDoc>, k: int, id: UserId)
    requires 0 <= k < |users|
  {
    users[k].id == id && forall j :: 0 <= j < k ==> users[j].id != id
  }

  /**
    `findByIdAndUpdate(id, { $push: { reviews } })`: the first user with that
    id receives the review, every other user is left as it was, and nothing
    happens when no user has that id.
  */
  function MirrorReview(users: seq<UserDoc>, id: UserId, rv: ProfileReview): (r: seq<UserDoc>)
    ensures |r| == |users|
    ensures forall k :: 0 <= k < |users| ==>
              r[k] == if FirstWithId(users, k, id) then users[k].(reviews := users[k].reviews + [rv]) else users[k]
  {
    if users == [] then []
    else if users[0].id == id then
      var r := [users[0].(reviews := users[0].reviews + [rv])] + users[1..];
      assert forall k :: 1 <= k < |users| ==> !FirstWithId(users, k, id);
      r
    else
      var rest := MirrorReview(users[1..], id, rv);
      var r := [users[0]] + rest;
      assert forall k :: 1 <= k < |users| ==> r[k] == rest[k - 1] && users[k] == users[1..][k - 1];
      assert forall k :: 1 <= k < |users| ==> FirstWithId(users, k, id) == FirstWithId(users[1..], k - 1, id) by {
        forall k | 1 <= k < |users|
          ensures FirstWithId(users, k, id) == FirstWithId(users[1..], k - 1, id)
        {
          assert forall j :: 1 <= j < k ==> users[j] == users[1..][j - 1];
        }
      }
      r
  }

  /** What a review request leaves behind: the answer, the report, the users. */
  datatype ReviewResult = ReviewResult(outcome: Outcome<Reason>, doc: ReportDoc, users: seq<UserDoc>)

  /**
    What `submitReview` does to a report that exists. After the checks the
    review is mirrored onto the target user first, then the report is saved:
    when that save fails the user keeps the mirrored review.
  */
  function ReviewStep(d: ReportDoc, users: seq<UserDoc>, actorId: UserId, b: ReviewBody, bootYear: int): (r: ReviewResult)
    ensures d.status != Completed ==> r == ReviewResult(Fail(NotCompleted), d, users)
    ensures var first := FirstFailure(ReviewChecks(d, actorId, b));
            first.Some? ==> r == ReviewResult(Fail(first.value), d, users)
    ensures r.outcome.Fail? ==> r.doc == d
    ensures r.outcome.Fail? && r.outcome.error != ServerError ==> r.users == users
    ensures FirstFailure(ReviewChecks(d, actorId, b)).None? ==>
              && b.targetUserId.Some? && b.rating.Some?
              && r.users == MirrorReview(users, b.targetUserId.value, ProfileCopy(actorId, b))
    ensures r.outcome == Pass ==>
              && d.status == Completed
              && (actorId == d.info.userId || d.selectedQuotation == Some(actorId))
              && b.targetUserId.Some?
              && (b.targetUserId.value == d.info.userId || d.selectedQuotation == b.targetUserId)
              && b.rating.Some? && 1.0 <= b.rating.value <= 5.0
              && r.doc == d.(reviews := d.reviews + [Review(actorId, b.rating.value, TrimmedOpt(b.comment))])
              && r.users == MirrorReview(users, b.targetUserId.value, ProfileCopy(actorId, b))
              && ValidDoc(r.doc, bootYear)
  {
    var checks := ReviewChecks(d, actorId, b);
    match FirstFailure(checks)
    case Some(e) => ReviewResult(Fail(e), d, users)
    case None =>
      assert !checks[0].failed && !checks[1].failed && !checks[2].failed && !checks[4].failed;
      var rv := Review(actorId, b.rating.value, TrimmedOpt(b.comment));
      var users' := MirrorReview(users, b.targetUserId.value, ProfileCopy(actorId, b));
      var d' := d.(reviews := d.reviews + [rv]);
      if ValidDoc(d', bootYear) then ReviewResult(Pass, d', users')
      else ReviewResult(Fail(ServerError), d, users')
  }

  /**
    On a valid record whose selected specialist is set, a review that passes
    the checks is always stored, and the stored review is valid on both sides.
  */
  lemma ReviewSaved(d: ReportDoc, users: seq<UserDoc>, actorId: UserId, b: ReviewBody, bootYear: int)
    requires ValidDoc(d, bootYear) && actorId != ""
    requires FirstFailure(ReviewChecks(d, actorId, b)).None?
    ensures ReviewStep(d, users, actorId, b, bootYear).outcome == Pass
    ensures ValidProfileReview(ProfileCopy(actorId, b))
  {
    var checks := ReviewChecks(d, actorId, b);
    assert !checks[2].failed && !checks[3].failed;
    var rv := Review(actorId, b.rating.value, TrimmedOpt(b.comment));
    AppendKeepsValid(d, Quotation("", 0.0, "", ""), rv, bootYear);
  }

  /**
    The checks of `submitReview` on a completed report whose specialist is
    selected, in their order: a reviewer who took no part gets 403, then a
    rating that is missing, 0 or outside 1..5 gets 400.
  */
  lemma ReviewCheckOrder(d: ReportDoc, users: seq<UserDoc>, actorId: UserId, b: ReviewBody, bootYear: int)
    requires d.status == Completed && d.selectedQuotation.Some?
    ensures var r := ReviewStep(d, users, actorId, b, bootYear);
            && (actorId != d.info.userId && actorId != d.selectedQuotation.value
                ==> r == ReviewResult(Fail(NotParticipant), d, users))
            && ((actorId == d.info.userId || actorId == d.selectedQuotation.value)
                && (!NumGiven(b.rating) || b.rating.value < 1.0 || b.rating.value > 5.0)
                ==> r == ReviewResult(Fail(BadRating), d, users))
  {
    var checks := ReviewChecks(d, actorId, b);
    if actorId != d.info.userId && actorId != d.selectedQuotation.value {
      FirstFailureIs(checks, 1);
    } else if !NumGiven(b.rating) || b.rating.value < 1.0 || b.rating.value > 5.0 {
      FirstFailureIs(checks, 2);
    }
  }

  /** Nothing stops a participant from reviewing themself: the target need only be a participant. */
  lemma SelfReviewAccepted(d: ReportDoc, users: seq<UserDoc>, b: ReviewBody, bootYear: int)
    requires ValidDoc(d, bootYear) && d.status == Completed
    requires b.rating == Some(5.0) && b.comment.None? && b.targetUserId == Some(d.info.userId)
    ensures ReviewStep(d, users, d.info.userId, b, bootYear).outcome == Pass
  {
    ReviewSaved(d, users, d.info.userId, b, bootYear);
  }

  method SubmitReview(report: Report?, users: seq<UserDoc>, actorId: UserId, body: ReviewBody, bootYear: int)
    returns (r: Outcome<Reason>, users': seq<UserDoc>)
    modifies report
    ensures report == null ==> r == Fail(NotFound) && users' == users
    ensures report != null ==>
              var step := ReviewStep(old(report.Doc()), users, actorId, body, bootYear);
              r == step.outcome && users' == step.users && report.Doc() == step.doc
  {
    if report == null {
      return Fail(NotFound), users;
    }
    var step := ReviewStep(report.Doc(), users, actorId, body, bootYear);
    var checks := ReviewChecks(report.Doc(), actorId, body);
    if FirstFailure(checks).Some? {
      return step.outcome, users;
    }
    assert !checks[2].failed && !checks[4].failed;
    var rv := Review(actorId, body.rating.value, TrimmedOpt(body.comment));
    users' := MirrorReview(users, body.targetUserId.value, ProfileCopy(actorId, body));
    if ValidDoc(report.Doc().(reviews := report.reviews + [rv]), bootYear) {
      report.reviews := report.reviews + [rv];
      r := Pass;
    } else {
      r := Fail(ServerError);
    }
  }

  // ---------------------------------------------------------------------------
  // listings and chat

  /** `getUserReports`: only for oneself, then the reports whose owner is that user. */
  function UserReports(actorId: UserId, userId: UserId, docs: seq<ReportDoc>): (r: Result<seq<ReportDoc>, Reason>)
    ensures r.Failure? <==> actorId != userId
    ensures r.Failure? ==> r.error == OtherUser
    ensures r.Success? ==> forall k :: 0 <= k < |r.value| ==> r.value[k].info.userId == userId && r.value[k] in docs
    ensures r.Success? ==> forall k :: 0 <= k < |docs| && docs[k].info.userId == userId ==> docs[k] in r.value
  {
    if actorId != userId then Failure(OtherUser)
    else Success(Where(docs, (d: ReportDoc) => d.info.userId == userId))
  }

  /** `getReportsForSpecialist`: only for specialists, then every pending report. */
  function PendingReports(actor: UserDoc, docs: seq<ReportDoc>): (r: Result<seq<ReportDoc>, Reason>)
    ensures r.Failure? <==> actor.userType != Specialist
    ensures r.Failure? ==> r.error == NotSpecialist
    ensures r.Success? ==> forall k :: 0 <= k < |r.value| ==> r.value[k].status == Pending && r.value[k] in docs
    ensures r.Success? ==> forall k :: 0 <= k < |docs| && docs[k].status == Pending ==> docs[k] in r.value
  {
    if actor.userType != Specialist then Failure(NotSpecialist)
    else Success(Where(docs, (d: ReportDoc) => d.status == Pending))
  }

  datatype ChatError = ChatReportNotFound | ChatUnauthorized

  /** The chat's send check: a message is broadcast only from the owner or the selected specialist. */
  function ChatSend(d: Option<ReportDoc>, senderId: UserId): (r: Outcome<ChatError>)
    ensures d.None? ==> r == Fail(ChatReportNotFound)
    ensures d.Some? ==> (r == Pass <==> senderId == d.value.info.userId || d.value.selectedQuotation == Some(senderId))
    ensures r != Pass ==> r.Fail?
  {
    if d.None? then Fail(ChatReportNotFound)
    else if senderId != d.value.info.userId
            && (d.value.selectedQuotation.None? || senderId != d.value.selectedQuotation.value)
    then Fail(ChatUnauthorized)
    else Pass
  }
}

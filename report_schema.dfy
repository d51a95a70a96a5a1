/**
  The vehicle-service report record and what mongoose demands of it on every
  `save()`: the status and urgency enums, the bounds on images, videos, year
  and description, and the constraints on the embedded quotations, reviews
  and appointment. Stored strings are the trimmed values (the schema's `trim`
  setters run when a value is assigned, before `required` and `maxlength`
  are checked).
*/
module ReportSchema {
  import opened Basics
  import opened Text

  datatype Status = Pending | Accepted | InProgress | Completed {
    function Name(): string {
      match this
      case Pending => "pending"
      case Accepted => "accepted"
      case InProgress => "in-progress"
      case Completed => "completed"
    }

    /** The position of the status along `pending → accepted → in-progress → completed`. */
    function Rank(): nat {
      match this
      case Pending => 0
      case Accepted => 1
      case InProgress => 2
      case Completed => 3
    }
  }

  const StatusNames: seq<string> := ["pending", "accepted", "in-progress", "completed"]

  /** The status a new record takes when none is given. */
  const DefaultStatus: Status := Pending

  /** The `status` path: the enum's names and nothing else. */
  function ParseStatus(s: string): (r: Option<Status>)
    ensures r.Some? <==> s in StatusNames
    ensures r.Some? ==> r.value.Name() == s
  {
    if s == "pending" then Some(Pending)
    else if s == "accepted" then Some(Accepted)
    else if s == "in-progress" then Some(InProgress)
    else if s == "completed" then Some(Completed)
    else None
  }

  /** Names and statuses correspond one to one, in lifecycle order, starting from the default. */
  lemma StatusNamesRoundTrip(st: Status)
    ensures ParseStatus(st.Name()) == Some(st)
    ensures StatusNames[st.Rank()] == st.Name()
    ensures DefaultStatus.Name() == "pending" && DefaultStatus.Rank() == 0
  {
  }

  /** The `urgency` enum of the schema. */
  const SchemaUrgencies: seq<string> := ["urgent", "very urgent", "not really urgent"]

  datatype Review = Review(reviewerId: UserId, rating: real, comment: Option<string>)

  /** Rating 1..5, comment at most 500 characters, a reviewer. */
  predicate ValidReview(r: Review) {
    && r.reviewerId != ""
    && 1.0 <= r.rating <= 5.0
    && (r.comment.Some? ==> |r.comment.value| <= 500)
  }

  datatype Quotation = Quotation(specialistId: UserId, amount: real, duration: string, reasonForFault: string)

  /** A specialist, a non-negative amount, a duration, and a reason of at most 1000 characters. */
  predicate ValidQuotation(q: Quotation) {
    && q.specialistId != ""
    && q.amount >= 0.0
    && q.duration != ""
    && q.reasonForFault != "" && |q.reasonForFault| <= 1000
  }

  /** The appointment instant (milliseconds) and the time of day as the owner typed it. */
  datatype Appointment = Appointment(date: int, time: string)

  predicate ValidAppointment(a: Appointment) {
    a.time != ""
  }

  /** The fields fixed when the report is created; no handler changes them afterwards. */
  datatype ReportInfo = ReportInfo(
    carMaker: string,
    carModel: string,
    carYear: real,
    issueType: string,
    description: string,
    mileage: Option<real>,
    contactEmail: Option<string>,
    carMakeOther: Option<string>,
    locationOther: Option<string>,
    urgency: string,
    location: string,
    userId: UserId)

  /** A stored report: its fixed fields and the fields the handlers update. */
  datatype ReportDoc = ReportDoc(
    info: ReportInfo,
    images: seq<string>,
    videos: seq<string>,
    status: Status,
    quotations: seq<Quotation>,
    selectedQuotation: Option<UserId>,
    appointment: Option<Appointment>,
    reviews: seq<Review>)

  /**
    The fixed fields: the five required strings present, 1900 <= carYear <=
    the year the server started + 1, description at most 2000 characters, a
    mileage that is not negative, an urgency from the schema's enum, an owner.
  */
  predicate ValidInfo(i: ReportInfo, bootYear: int) {
    && i.carMaker != "" && i.carModel != "" && i.issueType != "" && i.description != "" && i.location != ""
    && 1900.0 <= i.carYear <= (bootYear + 1) as real
    && |i.description| <= 2000
    && (i.mileage.Some? ==> i.mileage.value >= 0.0)
    && i.urgency in SchemaUrgencies
    && i.userId != ""
  }

  /**
    What `save()` checks of the whole record. `bootYear` is the year when the
    schema was built: the bound on `carYear` is computed once, at start-up.
  */
  predicate ValidDoc(d: ReportDoc, bootYear: int) {
    && ValidInfo(d.info, bootYear)
    && 1 <= |d.images| <= 5
    && |d.videos| <= 5
    && (forall k :: 0 <= k < |d.quotations| ==> ValidQuotation(d.quotations[k]))
    && (d.appointment.Some? ==> ValidAppointment(d.appointment.value))
    && (forall k :: 0 <= k < |d.reviews| ==> ValidReview(d.reviews[k]))
  }

  /** Mongoose's `trim` setter on an optional string path. */
  function TrimmedOpt(s: Option<string>): (r: Option<string>)
    ensures r.Some? <==> s.Some?
    ensures r.Some? ==> r.value == Trim(s.value) && |r.value| <= |s.value|
  {
    if s.Some? then Some(Trim(s.value)) else None
  }

  /** The status is not among the constraints: changing it alone never makes a record invalid. */
  lemma StatusFree(d: ReportDoc, st: Status, bootYear: int)
    requires ValidDoc(d, bootYear)
    ensures ValidDoc(d.(status := st), bootYear)
  {
  }

  /** Appending a valid quotation or review keeps a valid record valid. */
  lemma AppendKeepsValid(d: ReportDoc, q: Quotation, r: Review, bootYear: int)
    requires ValidDoc(d, bootYear)
    ensures ValidQuotation(q) ==> ValidDoc(d.(quotations := d.quotations + [q]), bootYear)
    ensures ValidReview(r) ==> ValidDoc(d.(reviews := d.reviews + [r]), bootYear)
  {
    var qs := d.quotations + [q];
    assert forall k :: 0 <= k < |d.quotations| ==> qs[k] == d.quotations[k];
    var rs := d.reviews + [r];
    assert forall k :: 0 <= k < |d.reviews| ==> rs[k] == d.reviews[k];
  }

  /** A record that was valid when the server started stays valid after a restart in a later year. */
  lemma LaterBootStillValid(d: ReportDoc, boot1: int, boot2: int)
    requires boot1 <= boot2 && ValidDoc(d, boot1)
    ensures ValidDoc(d, boot2)
  {
  }
}

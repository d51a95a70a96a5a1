/**
  The report handlers taken together: a report is created pending, and from
  then on every request (a quotation, an acceptance, the scheduled
  transition, the owner's completion, a review, the late save of the
  uploaded media) either fails and leaves the
  record as it was, or makes one small change to it. The invariant below is
  what every such sequence keeps; the lemmas say which way the status moves
  and what a stalled report looks like.
*/
module ReportLifecycle {
  import opened Basics
  import opened ReportSchema
  import opened UserSchema
  import opened ReportController

  /** A request that reaches a report that exists. */
  datatype Event =
    | Quote(actor: UserDoc, quotation: QuotationBody)
    | Accept(acceptorId: UserId, specialistId: UserId, date: Option<string>, time: Option<string>, now: int)
    | Fire
    | Complete(ownerId: UserId)
    | Rate(raterId: UserId, review: ReviewBody)
    | Media(imageUpload: UploadResult, videoUpload: Option<UploadResult>)

  /** The stored record and whether an in-progress timer is pending for it. */
  datatype Life = Life(doc: ReportDoc, timerArmed: bool)

  /**
    One request. A failed handler leaves the record as it was. A timer fires
    only when one is armed, and then sets the status without looking at it.
  */
  function Apply(l: Life, e: Event, parseDate: string -> Option<int>, bootYear: int): Life {
    match e
    case Quote(actor, body) =>
      var r := QuotationStep(l.doc, actor, body, bootYear);
      if r.Success? then l.(doc := r.value) else l
    case Accept(actorId, specialistId, date, time, now) =>
      var r := AcceptStep(l.doc, actorId, specialistId, date, time, parseDate, now, bootYear);
      if r.Success? then Life(r.value.doc, r.value.timer.Some?) else l
    case Fire =>
      if l.timerArmed then Life(l.doc.(status := InProgress), false) else l
    case Complete(actorId) =>
      var r := CompleteStep(l.doc, actorId, bootYear);
      if r.Success? then l.(doc := r.value) else l
    case Rate(actorId, body) =>
      l.(doc := ReviewStep(l.doc, [], actorId, body, bootYear).doc)
    case Media(imageUpload, videoUpload) =>
      var d := MediaStep(l.doc, imageUpload, videoUpload).0;
      if ValidDoc(d, bootYear) then l.(doc := d) else l
  }

  function Run(l: Life, events: seq<Event>, parseDate: string -> Option<int>, bootYear: int): Life
    decreases |events|
  {
    if events == [] then l
    else Run(Apply(l, events[0], parseDate, bootYear), events[1..], parseDate, bootYear)
  }

  /**
    What holds of a stored report between requests: it satisfies the schema;
    a specialist is selected exactly when it has left pending, and then the
    selected specialist is one who quoted and an appointment is set; a
    pending timer means it is accepted; reviews only exist once completed.
  */
  predicate Coherent(l: Life, bootYear: int) {
    var d := l.doc;
    && ValidDoc(d, bootYear)
    && (d.status == Pending <==> d.selectedQuotation.None?)
    && (d.status == Pending ==> d.appointment.None?)
    && (d.status != Pending ==> d.appointment.Some? && HasQuotationFrom(d.quotations, d.selectedQuotation.value))
    && (l.timerArmed ==> d.status == Accepted)
    && (d.status != Completed ==> d.reviews == [])
  }

  /**
    How one record relates to an earlier one: the fixed fields are the same,
    the status has moved forward by at most one step, quotations and reviews
    have only grown at the end, and once out of pending the selection and the
    appointment are the same.
  */
  predicate Progress(d: ReportDoc, d': ReportDoc) {
    && d'.info == d.info
    && d.status.Rank() <= d'.status.Rank() <= d.status.Rank() + 1
    && |d.quotations| <= |d'.quotations| && d'.quotations[..|d.quotations|] == d.quotations
    && |d.reviews| <= |d'.reviews| && d'.reviews[..|d.reviews|] == d.reviews
    && (d.status != Pending ==> d'.selectedQuotation == d.selectedQuotation && d'.appointment == d.appointment)
  }

  /** Progress over many steps: the status may move several steps, everything else as for one. */
  predicate Later(d: ReportDoc, d': ReportDoc) {
    && d'.info == d.info
    && d.status.Rank() <= d'.status.Rank()
    && |d.quotations| <= |d'.quotations| && d'.quotations[..|d.quotations|] == d.quotations
    && |d.reviews| <= |d'.reviews| && d'.reviews[..|d.reviews|] == d.reviews
    && (d.status != Pending ==> d'.selectedQuotation == d.selectedQuotation && d'.appointment == d.appointment)
  }

  /** A report that `createReport` stores starts coherent, with no timer. */
  lemma CreatedCoherent(actor: UserDoc, emailSent: bool, b: ReportBody, year: int, bootYear: int)
    requires CreateReportStep(actor, emailSent, b, year, bootYear).Success?
    ensures Coherent(Life(CreateReportStep(actor, emailSent, b, year, bootYear).value, false), bootYear)
  {
  }

  lemma QuotedFromStays(qs: seq<Quotation>, q: Quotation, id: UserId)
    requires HasQuotationFrom(qs, id)
    ensures HasQuotationFrom(qs + [q], id)
  {
    var k :| 0 <= k < |qs| && qs[k].specialistId == id;
    assert (qs + [q])[k] == qs[k];
  }

  lemma QuoteKeeps(l: Life, actor: UserDoc, body: QuotationBody, parseDate: string -> Option<int>, bootYear: int)
    requires Coherent(l, bootYear)
    ensures var l' := Apply(l, Quote(actor, body), parseDate, bootYear);
            Coherent(l', bootYear) && Progress(l.doc, l'.doc)
  {
    var r := QuotationStep(l.doc, actor, body, bootYear);
    if r.Success? {
      var q := Quotation(actor.id, body.amount.value, body.duration.value, body.reasonForFault.value);
      if l.doc.status != Pending {
        QuotedFromStays(l.doc.quotations, q, l.doc.selectedQuotation.value);
      }
      assert r.value.quotations[..|l.doc.quotations|] == l.doc.quotations;
    }
  }

  lemma AcceptKeeps(l: Life, actorId: UserId, specialistId: UserId, date: Option<string>, time: Option<string>,
                    now: int, parseDate: string -> Option<int>, bootYear: int)
    requires Coherent(l, bootYear)
    ensures var l' := Apply(l, Accept(actorId, specialistId, date, time, now), parseDate, bootYear);
            Coherent(l', bootYear) && Progress(l.doc, l'.doc)
  {
    var r := AcceptStep(l.doc, actorId, specialistId, date, time, parseDate, now, bootYear);
    if r.Success? {
      assert l.doc.status == Pending;
    }
  }

  lemma FireKeeps(l: Life, parseDate: string -> Option<int>, bootYear: int)
    requires Coherent(l, bootYear)
    ensures var l' := Apply(l, Fire, parseDate, bootYear);
            Coherent(l', bootYear) && Progress(l.doc, l'.doc)
  {
    if l.timerArmed {
      StatusFree(l.doc, InProgress, bootYear);
    }
  }

  lemma CompleteKeeps(l: Life, actorId: UserId, parseDate: string -> Option<int>, bootYear: int)
    requires Coherent(l, bootYear)
    ensures var l' := Apply(l, Complete(actorId), parseDate, bootYear);
            Coherent(l', bootYear) && Progress(l.doc, l'.doc)
  {
    var r := CompleteStep(l.doc, actorId, bootYear);
    if r.Success? {
      StatusFree(l.doc, Completed, bootYear);
    }
  }

  lemma RateKeeps(l: Life, actorId: UserId, body: ReviewBody, parseDate: string -> Option<int>, bootYear: int)
    requires Coherent(l, bootYear)
    ensures var l' := Apply(l, Rate(actorId, body), parseDate, bootYear);
            Coherent(l', bootYear) && Progress(l.doc, l'.doc)
  {
    var r := ReviewStep(l.doc, [], actorId, body, bootYear);
    if r.outcome == Pass {
      assert r.doc.reviews[..|l.doc.reviews|] == l.doc.reviews;
    }
  }

  /**
    The late save of the uploaded media, which may land between any two
    requests, keeps the report coherent and changes neither its status nor
    anything the other handlers look at.
  */
  lemma MediaKeeps(l: Life, imageUpload: UploadResult, videoUpload: Option<UploadResult>,
                   parseDate: string -> Option<int>, bootYear: int)
    requires Coherent(l, bootYear)
    ensures var l' := Apply(l, Media(imageUpload, videoUpload), parseDate, bootYear);
            && Coherent(l', bootYear) && Progress(l.doc, l'.doc)
            && l'.doc.(images := l.doc.images, videos := l.doc.videos) == l.doc
            && l'.timerArmed == l.timerArmed
  {
    assert l.doc.quotations[..|l.doc.quotations|] == l.doc.quotations;
    assert l.doc.reviews[..|l.doc.reviews|] == l.doc.reviews;
  }

  /** Every request keeps a coherent report coherent and moves it forward by at most one status. */
  lemma ApplyKeepsCoherent(l: Life, e: Event, parseDate: string -> Option<int>, bootYear: int)
    requires Coherent(l, bootYear)
    ensures Coherent(Apply(l, e, parseDate, bootYear), bootYear)
    ensures Progress(l.doc, Apply(l, e, parseDate, bootYear).doc)
  {
    match e
    case Quote(actor, body) => QuoteKeeps(l, actor, body, parseDate, bootYear);
    case Accept(actorId, specialistId, date, time, now) =>
      AcceptKeeps(l, actorId, specialistId, date, time, now, parseDate, bootYear);
    case Fire => FireKeeps(l, parseDate, bootYear);
    case Complete(actorId) => CompleteKeeps(l, actorId, parseDate, bootYear);
    case Rate(actorId, body) => RateKeeps(l, actorId, body, parseDate, bootYear);
    case Media(imageUpload, videoUpload) => MediaKeeps(l, imageUpload, videoUpload, parseDate, bootYear);
  }

  lemma LaterStep(d1: ReportDoc, d2: ReportDoc, d3: ReportDoc)
    requires Progress(d1, d2) && Later(d2, d3)
    ensures Later(d1, d3)
  {
    assert d3.quotations[..|d1.quotations|] == d2.quotations[..|d2.quotations|][..|d1.quotations|];
    assert d3.reviews[..|d1.reviews|] == d2.reviews[..|d2.reviews|][..|d1.reviews|];
  }

  /** Any sequence of requests keeps a coherent report coherent, and only ever moves it forward. */
  lemma {:induction false} RunKeepsCoherent(l: Life, events: seq<Event>, parseDate: string -> Option<int>, bootYear: int)
    requires Coherent(l, bootYear)
    ensures Coherent(Run(l, events, parseDate, bootYear), bootYear)
    ensures Later(l.doc, Run(l, events, parseDate, bootYear).doc)
    decreases |events|
  {
    if events == [] {
      assert l.doc.quotations[..|l.doc.quotations|] == l.doc.quotations;
      assert l.doc.reviews[..|l.doc.reviews|] == l.doc.reviews;
    } else {
      var l1 := Apply(l, events[0], parseDate, bootYear);
      ApplyKeepsCoherent(l, events[0], parseDate, bootYear);
      RunKeepsCoherent(l1, events[1..], parseDate, bootYear);
      LaterStep(l.doc, l1.doc, Run(l1, events[1..], parseDate, bootYear).doc);
    }
  }

  /**
    An accepted report with no timer pending (the appointment was not in the
    future when it was accepted) stays accepted whatever requests follow:
    only the timer leads out of accepted.
  */
  lemma {:induction false} StuckWithoutTimer(l: Life, events: seq<Event>, parseDate: string -> Option<int>, bootYear: int)
    requires Coherent(l, bootYear) && l.doc.status == Accepted && !l.timerArmed
    ensures Run(l, events, parseDate, bootYear).doc.status == Accepted
    ensures !Run(l, events, parseDate, bootYear).timerArmed
    decreases |events|
  {
    if events != [] {
      var l1 := Apply(l, events[0], parseDate, bootYear);
      ApplyKeepsCoherent(l, events[0], parseDate, bootYear);
      assert l1.doc.status == Accepted && !l1.timerArmed by {
        match events[0]
        case Quote(actor, body) =>
        case Accept(actorId, specialistId, date, time, now) =>
          SecondAcceptFails(l.doc, actorId, specialistId, date, time, parseDate, now, bootYear);
        case Fire =>
        case Complete(actorId) =>
        case Rate(actorId, body) =>
        case Media(imageUpload, videoUpload) =>
      }
      StuckWithoutTimer(l1, events[1..], parseDate, bootYear);
    }
  }

  /** An armed timer always finds the report accepted when it fires, and moves it to in-progress. */
  lemma FireFindsAccepted(l: Life, parseDate: string -> Option<int>, bootYear: int)
    requires Coherent(l, bootYear) && l.timerArmed
    ensures l.doc.status == Accepted
    ensures Apply(l, Fire, parseDate, bootYear).doc == l.doc.(status := InProgress)
  {
  }

  /**
    On a coherent report the review handler never reaches the server-error
    path: a completed report always has a selected specialist, and its
    record accepts any review that passes the checks.
  */
  lemma CoherentReviewNoServerError(l: Life, users: seq<UserDoc>, actorId: UserId, b: ReviewBody, bootYear: int)
    requires Coherent(l, bootYear) && actorId != ""
    ensures ReviewStep(l.doc, users, actorId, b, bootYear).outcome != Fail(ServerError)
  {
    var checks := ReviewChecks(l.doc, actorId, b);
    if FirstFailure(checks).None? {
      ReviewSaved(l.doc, users, actorId, b, bootYear);
    } else if l.doc.status == Completed {
      assert l.doc.selectedQuotation.Some?;
      assert forall k :: 0 <= k < |checks| ==> checks[k].reason != ServerError;
    }
  }

  /**
    Who may chat: before acceptance only the owner; afterwards the owner and
    the specialist whose quotation was accepted.
  */
  lemma ChatParticipants(l: Life, senderId: UserId, bootYear: int)
    requires Coherent(l, bootYear)
    ensures l.doc.status == Pending ==> (ChatSend(Some(l.doc), senderId) == Pass <==> senderId == l.doc.info.userId)
    ensures l.doc.status != Pending ==>
              (ChatSend(Some(l.doc), senderId) == Pass <==>
                 senderId == l.doc.info.userId || senderId == l.doc.selectedQuotation.value)
  {
  }
}

# Wheeltin report lifecycle in Dafny

Wheeltin is an Express/Mongoose back end for booking vehicle services. This
project models its core: the vehicle-service report.

- A verified user files a report. It starts `pending`.
- Specialists send quotations.
- The owner accepts one quotation and books an appointment. The report becomes
  `accepted`, and a timer is armed for the appointment.
- When the timer fires, the report becomes `in-progress`.
- The owner marks it `completed`.
- Either party may then review the other. The review is copied onto the
  target user's profile.

Every handler is a chain of early returns followed by a small in-place change
to the loaded record. `save()` then validates that record against the schema.

Next to the report lifecycle, the project models:

- the job handlers: creation, the update merge, deletion and the owner guards;
- signup and login;
- the credential helpers: the email and password validators, the four-digit
  code, and the bearer-token middleware;
- the user schema.

## Layout

| File | Module | Contents |
|---|---|---|
| `basics.dfy` | `Basics` | Option and Result types; the shapes of JSON body fields (JavaScript truthiness); the guard chain `FirstFailure`; the filtered `find`. |
| `text.dfy` | `Text` | `trim`; `split` and `join`; decision procedures for the email, password and UK postcode patterns, each proved equal to a declarative reading of its pattern; the US ZIP code and phone patterns read directly as predicates; decimal digits and `padStart`. |
| `credentials.dfy` | `Credentials` | The helpers in `resources/functions.js`. |
| `user_schema.dfy` | `UserSchema` | The user record, its defaults, and what `save()` demands of it. |
| `report_schema.dfy` | `ReportSchema` | The report record, its enums, and what `save()` demands of it. |
| `report_controller.dfy` | `ReportController` | A `Report` class for the stored record. For each handler, a pure step function states the answer and the new record, and a method performs the change in place. |
| `report_lifecycle.dfy` | `ReportLifecycle` | Every handler, timer firings and the late media save included, keeps an invariant of the record and moves the status only forward. |
| `job_schema.dfy`, `job_controller.dfy` | `JobSchema`, `JobController` | The job record and its handlers. |
| `user_controller.dfy` | `UserController` | Signup and login. |

External services are parameters of the operations:

- **Database:** the record `findById` returned (`null` becomes `report == null`); the existing users as a sequence; the jobs as a map keyed by id.
- **Geocoder:** a function from country to failure message.
- **Media host:** an upload result (`Uploaded(urls)` or `UploadFailed(message)`).
- **Email:** whether the verification email could be sent.
- **Hashing and tokens:** the bcrypt hash, the bcrypt comparison and `jwt.verify`.
- **`Date.parse`:** a partial function to milliseconds.
- **Clock:** the current time and the current year.
- **Server start:** the year the server started, as `bootYear`. The schema fixes its `carYear` bound at start-up, not per request.

## Model

| member | source | states |
|---|---|---|
| Basics.FirstFailure | controllers/Job/ReportController.js:21-57 | A chain of early returns answers with the reason of the first failing check. It answers nothing exactly when every check passes. |
| Basics.FirstFailureIs | controllers/Job/ReportController.js:31-34 | A check that fails after only passing checks decides the answer, whatever the later checks say. |
| Basics.Where | controllers/Job/ReportController.js:389 | A `find` with a filter returns only matching records from the collection, and every matching record. |
| Basics.WhereCounts | controllers/Job/ReportController.js:389 | Each matching record is returned as many times as it is stored, and a record that does not match is never returned. |
| Basics.WhereInOrder | controllers/Job/ReportController.js:389 | The returned records are the stored ones with the others left out, in stored order. |
| Text.Trim | models/job/reportSchema.js:26 | The `trim` setter's result is no longer than the input and has no white space at either end. |
| Text.TrimIsSlice | models/job/reportSchema.js:26 | The `trim` setter's result is a contiguous part of the input. Only white space lies around it in the input. |
| Text.BlankIffAllSpace | models/job/reportSchema.js:26-30 | A value trims to the empty string, and so fails `required`, exactly when it is all white space. |
| Text.JoinSplit | resources/functions.js:180 | Joining the pieces of `split` with the separator gives back the string. |
| Text.SplitJoin | resources/functions.js:180 | Splitting a join of separator-free pieces gives back the pieces. |
| Text.EmailShapedIffPattern | resources/functions.js:51 | The decision procedure for the email check agrees with the pattern on every string. The pattern is: no white space and no `@` around a single `@`, and a dot in the domain with text on both sides. |
| Text.PasswordShapedIffPattern | resources/functions.js:66 | The decision procedure agrees with the password pattern (two lookaheads and `.{8,}`) on every string. |
| Text.UkPostcodeIffPattern | controllers/Job/jobControllers.js:75 | The decision procedure agrees with the case-insensitive UK postcode pattern on every string. |
| Text.DecimalRoundTrip | resources/functions.js:109 | Reading back the decimal form of `n` (`toString`) gives `n`. |
| Text.PadStart | resources/functions.js:109 | `padStart` reaches the requested width and keeps the string as its suffix. Everything before the suffix is the pad character. |
| Credentials.ValidateEmail | resources/functions.js:50-61 | Valid exactly when the address matches the pattern. The message is the one for that verdict. |
| Credentials.AnyDomainAccepted | resources/functions.js:55-59 | The list of common providers never changes the verdict: any domain `b.c` is accepted. |
| Credentials.SpaceRefused | resources/functions.js:51 | An address with white space anywhere is refused. |
| Credentials.ValidatePassword | resources/functions.js:64-74 | Valid exactly when the password has at least eight characters, none a line terminator, and among them an A–Z letter and a digit. |
| Credentials.ValidateUserInput | resources/functions.js:80-87 | The email verdict follows the email pattern, and the password verdict follows the password pattern. |
| Credentials.UserInputIndependent | resources/functions.js:80-87 | Each verdict depends on its own argument only. |
| Credentials.FourDigitCode | resources/functions.js:107-113 | For `n` below 10000: exactly four digits, which denote `n`. They are `n`'s decimal form with leading zeros. |
| Credentials.ExtractToken | resources/functions.js:177-183 | After a `Bearer ` prefix, the token is the space-free run that follows, up to the next space or the end. Otherwise it is the whole header. |
| Credentials.BearerRoundTrip | resources/functions.js:179-180 | A client's `Bearer <token>` header gives back the token. |
| Credentials.RevokedOlderRevoked | resources/functions.js:199-201 | Revocation is monotone: a token issued before a revoked one is revoked too. |
| Credentials.RevocationGranularity | resources/functions.js:199 | A token from a later second than the password change is accepted. One issued after the change within the same second is still refused. |
| Credentials.Authenticate | resources/functions.js:168-209 | No header or an empty token gives 401 `TokenRequired`. A token the verifier refuses gives 403. Success exactly when the account exists and the token is not older than its last password change; the request then carries the verified claims. |
| Credentials.RawTokenAccepted | resources/functions.js:181-183 | A header without the prefix is used as the token as it is. |
| UserSchema.ParseUserType | models/user/userSchema.js:45-50 | A missing type defaults to `user`. A given type is accepted exactly when it is one of the three names, and keeps that name. |
| UserSchema.UserTypeRoundTrip | models/user/userSchema.js:45-50 | Every account type is stored under its own name and read back as itself. |
| UserSchema.NewUser | models/user/userSchema.js:55-66 | A new account is not verified. It has no reviews and no password change. `postCodes` defaults to empty, and the given fields are kept. |
| UserSchema.SchemaEmailIffPattern | models/user/userSchema.js:31 | The decision procedure agrees with the schema's email pattern on every string. The pattern is a local part, `@`, at least two labels, and a last label of 2 to 4 characters. |
| UserSchema.PasswordMinLengthRedundant | models/user/userSchema.js:39-44 | The `minlength: 8` of the password path adds nothing to its pattern. |
| ReportSchema.ParseStatus | models/job/reportSchema.js:58-62 | Accepts exactly the four status names, and each maps to the status of that name. |
| ReportSchema.StatusNamesRoundTrip | models/job/reportSchema.js:58-62 | Names and statuses match one to one in lifecycle order. The default is `pending`, at the start. |
| ReportSchema.TrimmedOpt | models/job/reportSchema.js:48 | Trimming an optional path keeps it present or absent. A present value is stored trimmed, so never longer. |
| ReportSchema.StatusFree | models/job/reportSchema.js:58-62 | The enum is the only constraint on the status, so setting another status never invalidates a valid record. |
| ReportSchema.AppendKeepsValid | models/job/reportSchema.js:63-66 | Appending a valid quotation or a valid review keeps a valid record valid. |
| ReportSchema.LaterBootStillValid | models/job/reportSchema.js:28 | A record valid under one start-up year stays valid under a later one. |
| JobSchema.BudgetOrderedMeaning | models/job/JobSchema.js:44-53 | The `budget_max` validator, which runs on any maximum but `undefined`: a missing or zero minimum allows any maximum. A non-zero minimum with a numeric maximum asks for one at least as large. A maximum of 0 or `null` under a positive minimum is refused. |
| JobSchema.UrgencyMeaning | models/job/JobSchema.js:54-61 | An urgency is accepted when absent or one of the three names. The empty string is refused. |
| ReportController.Report.constructor | controllers/Job/ReportController.js:68-86 | The stored record holds exactly the record built. |
| ReportController.Report.Fire | controllers/Job/ReportController.js:258-260 | The timer sets `in-progress` without looking at the status and changes nothing else. |
| ReportController.PassedChecks | controllers/Job/ReportController.js:21-57 | A body that passed every check has a verified author and every required field. Its description is at most 2000 characters, images number 1 to 5, videos at most 5, and the contact email is well formed. The urgency is on the controller's list, and the year is between 1900 and next year. |
| ReportController.EarlyCreateFailures | controllers/Job/ReportController.js:23-34 | An unverified author gets the verification answer, whatever else the body holds. A verified author missing the maker, the description, the urgency or the images gets 400 `MissingFields`. No check answers with a server error. |
| ReportController.CreateReportStep | controllers/Job/ReportController.js:21-86 | An unverified author gets 403. A missing required field gets 400 `MissingFields`. Any other non-server error is the first failing check. A server error happens only after every check passed. A new report is `pending`, owned by the actor, with the given images and the given videos or none, no quotations, reviews, selection or appointment, and is valid. It stores the trimmed maker, model, issue type, description and location, the given year and mileage, the trimmed contact email and "other" fields when given, and the urgency `urgent`. |
| ReportController.UrgentOnlyCommon | controllers/Job/ReportController.js:52-54 | `urgent` is the only urgency that both the controller's list and the schema's enum hold. |
| ReportController.OtherUrgenciesNeverCreate | controllers/Job/ReportController.js:52-54 | `normal` and `flexible` pass the controller's list but end in a server error, never in a report. |
| ReportController.BlankMakerIsServerError | controllers/Job/ReportController.js:32-34 | A car maker of white space passes the truthiness check and ends in a server error, because the trimmed value fails `required`. |
| ReportController.StaleYearBound | controllers/Job/ReportController.js:55-57 | After a new year without a restart, next year's models pass the controller and fail the schema. |
| ReportController.NewDocValid | controllers/Job/ReportController.js:68-86 | A body meeting the schema's demands builds a valid record. |
| ReportController.UrgentReportCreated | controllers/Job/ReportController.js:31-86 | The converse of the failure cases: passed checks, urgency `urgent`, no blank required field, and a year within the start-up bound give a new report. |
| ReportController.CreateReport | controllers/Job/ReportController.js:59-137 | Fails as the step does and creates nothing. Otherwise it creates a fresh stored report holding the step's record. The only warning in the response is the geocoding failure. |
| ReportController.MediaStep | controllers/Job/ReportController.js:117-135 | Each kind takes the hosted URLs only when its upload succeeded; the videos are uploaded only when the report holds some, so a report without videos never receives any. Each failed upload adds one warning. No other field changes. |
| ReportController.VideolessReportIgnoresVideoUpload | controllers/Job/ReportController.js:126-132 | For a report with no videos, the video upload plays no part: the record and the warnings are those of an image upload alone, and the videos stay empty. |
| ReportController.FailedUploadsChangeNothing | controllers/Job/ReportController.js:119-132 | When every upload fails, the record is exactly as it was. |
| ReportController.ReconcileMedia | controllers/Job/ReportController.js:117-135 | In place: the new media are stored when the resulting record is valid. Otherwise the record keeps its old media. The warnings come back late. |
| ReportController.QuotationStep | controllers/Job/ReportController.js:159-179 | Only a specialist may quote. Every non-server failure is the first failing check, in order: specialist, amount above 0, duration present, reason at most 1000 characters. Success then appends exactly one quotation, at the end, by the actor. On a valid record it succeeds exactly when those conditions hold. |
| ReportController.QuotationsNotDeduplicated | controllers/Job/ReportController.js:172-179 | The same quotation sent twice is stored twice. |
| ReportController.QuotationIgnoresStatus | controllers/Job/ReportController.js:154-179 | The status plays no part in whether a quotation is taken. |
| ReportController.SubmitQuotation | controllers/Job/ReportController.js:154-179 | A missing report gets 404 before anything else. Otherwise the record is changed as the step says, or left as it was with the step's error. |
| ReportController.TimerDelay | controllers/Job/ReportController.js:255-262 | A timer is armed exactly when the appointment instant parses and lies after now. It runs after 1 ms to 2147483647 ms. A delay within that bound lands on the appointment instant; a longer one is cut to 1 ms, as `setTimeout` does. |
| ReportController.FarAppointmentFiresAtOnce | controllers/Job/ReportController.js:255-262 | An appointment more than 2147483647 ms ahead makes the timer run after 1 ms. |
| ReportController.AcceptStep | controllers/Job/ReportController.js:216-241 | Every non-server failure is the first failing check, in order: owner, `pending`, date and time present, date parses, the specialist has quoted. Success changes exactly the selection, the appointment and the status (to `accepted`), and arms the timer per `TimerDelay`. On a valid record it succeeds exactly when those checks pass. |
| ReportController.AcceptCheckOrder | controllers/Job/ReportController.js:224-235 | For the owner of a pending report: a missing date or time gets `MissingAppointment`, then an unparsable date `BadDate`, then a specialist without a quotation `QuotationNotFound`. |
| ReportController.SecondAcceptFails | controllers/Job/ReportController.js:220-222 | Once out of `pending`, no acceptance succeeds. |
| ReportController.PastAppointmentArmsNothing | controllers/Job/ReportController.js:255-263 | An appointment not in the future arms no timer. |
| ReportController.AcceptQuotation | controllers/Job/ReportController.js:211-263 | A missing report gets 404. Otherwise the record is changed as the step says and the step's timer is armed, or nothing changes. |
| ReportController.CompleteStep | controllers/Job/ReportController.js:284-293 | Only the owner (`NotOwner` first), only from `in-progress` (`NotInProgress` otherwise). Every non-server failure is the first failing check. The result is the same record `completed`. On a valid record these conditions are also sufficient. |
| ReportController.CompleteReport | controllers/Job/ReportController.js:279-293 | A missing report gets 404. Otherwise the record changes as the step says, or not at all. |
| ReportController.MirrorReview | controllers/Job/ReportController.js:345-347 | The first user with the target id receives the review at the end of its reviews. Every other user is unchanged. |
| ReportController.ReviewStep | controllers/Job/ReportController.js:318-349 | Needs `completed`. Needs a reviewer and a target that are each the owner or the selected specialist, and a rating of 1 to 5. The first failing check answers and changes nothing. Once every check passes, the target's profile receives the review whether or not the report's save then succeeds. Success appends one review to the report. A failure leaves the report unchanged. |
| ReportController.ReviewCheckOrder | controllers/Job/ReportController.js:326-340 | On a completed report with a selected specialist: a reviewer who took no part gets `NotParticipant`, then a participant with a missing or out-of-range rating gets `BadRating`. |
| ReportController.ReviewSaved | controllers/Job/ReportController.js:326-349 | On a valid record, a review that passes the checks is always stored. Both copies are valid. |
| ReportController.SelfReviewAccepted | controllers/Job/ReportController.js:334-336 | The target may be the reviewer themself. |
| ReportController.SubmitReview | controllers/Job/ReportController.js:313-349 | A missing report gets 404. Otherwise the answer, the report and the users are those of the step. |
| ReportController.UserReports | controllers/Job/ReportController.js:384-390 | Only for oneself (403 otherwise). Returns exactly that user's reports, in stored order (`Where`, `WhereCounts`, `WhereInOrder`). |
| ReportController.PendingReports | controllers/Job/ReportController.js:366-371 | Only for specialists (403 otherwise). Returns exactly the pending reports, in stored order (`Where`, `WhereCounts`, `WhereInOrder`). |
| ReportController.ChatSend | controllers/Job/ReportController.js:422-433 | A missing report is an error. A message goes out exactly when the sender is the owner or the selected specialist. |
| ReportLifecycle.CreatedCoherent | controllers/Job/ReportController.js:68-86 | A created report satisfies the lifecycle invariant, with no timer. |
| ReportLifecycle.QuoteKeeps | controllers/Job/ReportController.js:164-179 | A quotation request keeps the invariant. It only appends a quotation. |
| ReportLifecycle.AcceptKeeps | controllers/Job/ReportController.js:220-241 | An acceptance keeps the invariant and moves `pending` to `accepted` at most. |
| ReportLifecycle.FireKeeps | controllers/Job/ReportController.js:254-263 | A timer firing keeps the invariant and moves `accepted` to `in-progress`. |
| ReportLifecycle.CompleteKeeps | controllers/Job/ReportController.js:288-293 | Completion keeps the invariant. |
| ReportLifecycle.RateKeeps | controllers/Job/ReportController.js:318-349 | A review keeps the invariant. It only appends a review. |
| ReportLifecycle.MediaKeeps | controllers/Job/ReportController.js:117-135 | The late media save keeps the invariant and the timer. It changes nothing but the images and videos, so the status and everything the other handlers read stay as they were. |
| ReportLifecycle.ApplyKeepsCoherent | controllers/Job/ReportController.js:117-349 | Every request, and the late media save, keeps the invariant. The status moves at most one step forward, the fixed fields stay, quotations and reviews only grow at the end, and the selection is stable once made. |
| ReportLifecycle.RunKeepsCoherent | controllers/Job/ReportController.js:117-349 | Any sequence of requests keeps the invariant and only moves the report forward. |
| ReportLifecycle.StuckWithoutTimer | controllers/Job/ReportController.js:254-263 | An accepted report with no timer armed stays `accepted` whatever requests follow. |
| ReportLifecycle.FireFindsAccepted | controllers/Job/ReportController.js:257-260 | An armed timer always finds the report `accepted`. Firing makes it `in-progress`. |
| ReportLifecycle.CoherentReviewNoServerError | controllers/Job/ReportController.js:322-336 | On a record satisfying the invariant, the review handler never reaches the server-error path. |
| ReportLifecycle.ChatParticipants | controllers/Job/ReportController.js:428-431 | Before acceptance only the owner may chat. Afterwards the owner and the accepted specialist may. |
| JobController.CreateChecksPassed | controllers/Job/jobControllers.js:37-62 | A body that passed the checks has every required field. Its title is at most 200 characters, its description at most 2000, its images 1 to 5, its urgency on the list, and a given minimum is not negative. The budgets are ordered when both are truthy, and the date parses. |
| JobController.CreateJob | controllers/Job/jobControllers.js:36-129 | The answer is `CreateJobAnswer`: the first failing check answers, with no warnings; once every check passes, the record is stored exactly when the schema accepts it, and otherwise the answer is 500 `ServerError`. The record is the trimmed body with the hosted or given images and the budgets as sent (`null` kept apart from absent). The warnings are: the geocoding failure for the country the code picks (always `US`, see Findings), then the postcode warning (only if geocoding succeeded and the postcode has neither shape), then the upload failure. |
| JobController.CheckedJobSaved | controllers/Job/jobControllers.js:92-107 | A body that passed the checks and has no blank required field is stored exactly when the urgency is not empty and a truthy minimum comes with a truthy or absent maximum. A maximum of 0 or `null` under a truthy minimum is refused. |
| JobController.PlainUserGeocodedInUS | controllers/Job/jobControllers.js:67 | As written, the verified token carries no account type, so a plain user's address is geocoded in the `US`, not the `UK` the code names for them. |
| JobController.IntendedJobCountry | controllers/Job/jobControllers.js:67 | The intended country: `UK` exactly for plain users, `US` for every other account type. |
| JobController.FalsyMaximumSkipsOrderCheck | controllers/Job/jobControllers.js:57-59 | A maximum of 0 or `null` skips the ordering check and is refused by the schema under a positive minimum. When every check passes, `createJob`'s answer (`CreateJobAnswer`) is then 500 `ServerError` rather than a 400. |
| JobController.MergeChangesOnlyProvided | controllers/Job/jobControllers.js:258-271 | Only provided fields change. The owner and the unique number never do. |
| JobController.MergeEmptyIsIdentity | controllers/Job/jobControllers.js:258-271 | An empty update with unchanged images leaves the record as it was. |
| JobController.MergeIdempotent | controllers/Job/jobControllers.js:258-271 | Sending the same update twice stores what sending it once stores. |
| JobController.FalsyValuesMergeDifferently | controllers/Job/jobControllers.js:261-268 | An empty title keeps the stored title. A budget of 0 or `null` replaces the stored budget. |
| JobController.UpdateJob | controllers/Job/jobControllers.js:186-273 | 404 before 403 before the checks on the given fields. Then the update validators decide. They check the merged fields, and the `budget_max` validator runs whenever the merge holds a maximum. When they pass, the merge is stored; otherwise the answer is 500. Images change only when given and uploaded. The warnings are: upload failure, then a changed address that fails geocoding, then a changed postcode of neither shape. |
| JobController.NullThisRefusesMaximum | controllers/Job/jobControllers.js:262-272 | Where the validator's `this` is null, any update of a job that has or gets a maximum answers 500. |
| JobController.UpdateCanBreakBudgetOrder | controllers/Job/jobControllers.js:258-272 | Where `this` is the query object, an update can store a maximum below the stored minimum. The stored record then breaks the ordering that `save()` demands. |
| JobController.DeleteJob | controllers/Job/jobControllers.js:307-318 | 404 before 403. Success removes exactly that job and keeps every other job as it was. |
| JobController.JobsByUser | controllers/Job/jobControllers.js:141-145 | Only for oneself (403 otherwise). Returns exactly that user's jobs, in stored order (`Where`, `WhereCounts`, `WhereInOrder`). |
| UserController.SignupChecksPassed | controllers/auth/userController.js:404-420 | A body that passed the checks has every required field, a well-formed email, a strong password, and the type `user` or `specialist`. |
| UserController.SignupCheckOrder | controllers/auth/userController.js:404-420 | A missing field is reported before the email. A wrong type is reported only for a well-formed email and a strong password. |
| UserController.AdminRefused | controllers/auth/userController.js:418-420 | An admin account cannot be created by signup. |
| UserController.PhonelessSignupBlocked | controllers/auth/userController.js:438-441 | As written, a signup without a phone is a duplicate exactly when any account exists. |
| UserController.TakenMeaning | controllers/auth/userController.js:438 | The corrected query compares only the email when no phone is given. With a phone it agrees with the written query. |
| UserController.EarlyWarnings | controllers/auth/userController.js:422-435 | A given phone of neither accepted shape draws the phone warning, then a failed geocoding draws the geocoding warning. Neither rejects the signup. The geocoding flag is set exactly when geocoding failed. |
| UserController.ExtractPostcodes | controllers/auth/userController.js:447-454 | The given list is kept in order. The address is appended exactly when geocoding succeeded and the address is a UK postcode or a US ZIP code. Otherwise the list is unchanged and the format warning is given. |
| UserController.SaveAccount | controllers/auth/userController.js:456-468 | The account is saved exactly when the schema accepts the record `SignupAccount` builds, and the saved account is that record. A refused record is a server error. |
| UserController.Signup | controllers/auth/userController.js:403-468 | The first failing check answers. After the checks, 400 `AlreadyInUse` exactly when the corrected duplicate query (`TakenMeaning`) matches an account: the email is taken, or the phone when one is given. The written query is modelled apart, in `PhonelessSignupBlocked`. Otherwise the account `SignupAccount` builds, with the given post codes plus the address exactly when geocoding succeeded and the address is a postcode, is created exactly when the schema accepts it, and refused with 500 `ServerError` otherwise. A new account is valid, not verified and has no reviews. The warnings are: the phone format, the geocoding failure, then the postcode format. |
| UserController.PostcodeOrWarning | controllers/auth/userController.js:450-454 | The address either joins the post codes or draws the format warning, never both and never neither. |
| UserController.SignupAccount | controllers/auth/userController.js:457-466 | The account signup builds holds the given id, email, phone, hash, type and post codes. It is not verified and has no reviews. |
| UserController.LongTopLabelRefused | controllers/auth/userController.js:409-412 | An address whose last label is longer than four characters passes the signup check and fails the schema's pattern. |
| UserController.FindByEmail | controllers/auth/userController.js:515 | The first account with that email, or none exactly when no account has it. |
| UserController.Login | controllers/auth/userController.js:504-524 | Both fields are required, then a well-formed email. Success exactly when an account has that email and the password matches its hash. |
| UserController.LoginErrorsUniform | controllers/auth/userController.js:515-524 | An unknown email and a wrong password get the very same 401 answer. |

## Left out

- **Sockets, email and notifications.** Socket rooms and broadcasts (`emit`, `to`), the connection handling of `setupChat`, the notification emails to specialists and owners, and the verification email are left out. Only their outcomes are inputs, such as whether the verification email was sent.
- **Parameters instead of implementations.** Geocoding, media uploads, bcrypt, `jwt.verify` and signing, `crypto.randomInt`, `generateUniqueNumber`, `Date.parse`, `Date.now` and the current year are not implemented. They are foreign calls, randomness or clocks, and their results are parameters.
- **Tokens after signup and login.** Generating the tokens and saving the refresh token are left out. They are foreign crypto plus a second save of a field no constraint touches.
- **`haversineDistance`.** Floating-point trigonometry.
- **`getReport` and `getJob`.** Plain lookups by id that answer 404 or the stored record, with nothing further to state.
- **Wiring and other handlers.** `app.js`, `db/database.js`, the route files and the other handlers of `controllers/auth/userController.js` (`refresh` and `logout`; the verification handlers there are commented out) are not part of this model.
- **String lengths.** Lengths count characters; JavaScript counts UTF-16 code units, so the two differ for characters outside the Basic Multilingual Plane.
- **Numeric body fields.** They are reals or absent. NaN, numbers sent as strings and JavaScript's coercions in `<` are not modelled.
- **Concurrency.** Two requests racing on one report are not modelled. The report's `Fire` timer and the media reconciliation are modelled as separate steps on the same record. The timer's save and its loss on a server restart are not modelled.
- **Unique indexes.** The unique indexes on the user's email and phone and on the job's unique number are not modelled. Neither is the duplicate-key error a `save()` raises for them. That error would refuse a second phoneless account even under the corrected duplicate query.
- Signup: a `postCodes` sent as `null` makes the source throw, giving 500; the model treats it like a missing list.
- UserController.Signup: the duplicate check uses the corrected query, not the one written at `controllers/auth/userController.js:438`. For a signup without a phone, the handler as written refuses the request whenever any account exists (`PhonelessSignupBlocked`); the model refuses it only when the email is taken.
- **Malformed ids.** Report and job ids are taken to be well-formed ObjectIds: a lookup either finds the record or finds nothing (404). For an id that is not an ObjectId, such as `"abc"`, `findById` throws a CastError, and the catch-all answers 500 instead (the chat emits "Server error"). This concerns `SubmitQuotation`, `AcceptQuotation`, `CompleteReport`, `SubmitReview`, `ChatSend`, `UpdateJob` and `DeleteJob`.
- ChatSend: the sender is always a string. In the source, a message without `senderId` on a report with no selected specialist passes the check, because `undefined !== undefined` is false. The model does not represent that case.
- UpdateJob: what `this` is inside the `budget_max` validator during `findByIdAndUpdate` depends on the mongoose release (the query object, or null). The model takes it as a parameter and does not decide it; with null, every update of a job with a maximum answers 500 (`NullThisRefusesMaximum`).
- JobController.CreateJob, JobController.UpdateJob: they geocode in the country the code picks, which is always `US`. They do not use the intended `IntendedJobCountry`, so that their warnings stay those of the code as written.
- CreateReport: the upload warnings are added to the response after it has been sent, so the client never sees them. `ReconcileMedia` returns them separately as late warnings.

## Findings

| source | as written | input that shows it | evidently intended | confidence | as-written member | corrected member |
|---|---|---|---|---|---|---|
| controllers/auth/userController.js:438 | `$or: [{ email }, phone ? { phone } : {}]`: without a phone, the second branch is the empty filter, which every account matches | any non-empty user collection, and a signup body with a new email and no phone: the request is refused with "Email or phone number already in use" | without a phone, only the email is compared | high, not executed | UserController.PhonelessSignupBlocked | UserController.TakenMeaning |
| controllers/Job/jobControllers.js:67 | `req.user.user_type === 'user' ? 'UK' : 'US'` (also at line 241): `req.user` is the verified token, whose claims are only `id` and `email` (resources/functions.js:153, 203), so the type is always undefined | a plain user creates or updates a job with a UK address: it is geocoded in the `US`, and a failure there draws the geocoding warning | geocode plain users' addresses in the `UK`, reading the type from the stored account | high, not executed | JobController.PlainUserGeocodedInUS | JobController.IntendedJobCountry |

# Bootway HR back office — request handlers over an in-memory store

This project models the core of the Bootway back end, an Express/Mongoose
service for a hiring workflow: jobs are posted, candidates apply, HR reviews
applications, schedules interviews, makes offers, and manages employees;
users register, log in and reset passwords.

The six Mongo collections (applications, jobs, users, offers, interviews,
employees) are maps from document id to record, held as fields of one
`Database.Store` class. The class also holds the id generator and the two
hash functions the handlers treat as opaque: the bcrypt hash and
`compare(p, h) == (hashPassword(p) == h)`, and the SHA-256 of reset tokens.
`Store.Valid()` is the conjunction of every schema constraint the handlers
rely on:

- required strings are non-empty;
- ratings lie in 0..5;
- stored e-mails are lower-case;
- no two applications share (jobId, candidateEmail);
- no two users share an e-mail;
- no two employees share a user or an employee number;
- every id is below the next id to be issued.

Each handler is a method that runs its guards in the source's order. It
either refuses (`Refused(Rejection(code, message))`, store unchanged), throws
a Mongoose error (`Thrown(ValidationError | DuplicateKey)`, which the source
hands to `next(err)`), or performs exactly one defined change. That change is
stated as the old collection updated with a specification function
(`Submission`, `Reviewed`, `PostedJob`, `PatchedJob`, `Toggled`,
`Registered`, `Drafted`, `Responded`, `Arranged`, `Updated`, `Patched`). The
properties the source promises are proved about those functions: the
guards' iff-and-order contracts, defaults, which fields an update may touch,
derived timestamps, and invariant preservation. Every handler also keeps
`Valid()`.

Request bodies are records of `Option` fields. JavaScript truthiness is
explicit:

- `Present(o)` means a non-empty string;
- `NonZero(o)` means a non-zero number;
- an array is always truthy.

Time is a `now: int` parameter. `Math.random()` is a real `u` in [0, 1).
`toLowerCase` is ASCII lower-casing (`Common.ToLower`). Listing handlers
(`find(filter).sort(key)`) go through one generic loop, `Query.SelectSorted`.
It returns exactly the matching ids, each once, ordered by the sort key. A
descending sort passes the negated key. The order between equal keys is left
open.

Mongoose behaviour that the handlers depend on, as modelled:

- `findByIdAndUpdate(…, { runValidators: true })` validates the update
  document before the lookup. So in `updateApplication`, `updateOffer`,
  `updateInterview` and `updateEmployee` a validation error comes before 404.
- `updateJob` looks the job up first, so there 404 comes first.
- `timestamps: true` sets `updatedAt` to `now` on every write through
  Mongoose. This includes the application status write in `createOffer`.
- `create` applies the schema's `required`, `enum`, `min`/`max` and defaults.
- A unique index refuses a write with a duplicate key.

## Model

| member | source | states |
|---|---|---|
| ApplicationModel.ParseStatus | models/Application.js:36-40 | a stored status is one of the six enum values; a string is accepted exactly when it names one |
| ApplicationModel.Create | models/Application.js:5-63 | a created application is well formed (name and e-mail present, rating in 0..5); job, candidate, name, e-mail, phone, resume, cover letter and status are the values given; reviewedAt, reviewedBy, notes and rating take their null defaults; appliedAt and both timestamps are now |
| ApplicationModel.InsertKeepsUnique | models/Application.js:76-78 | adding a document under a new id keeps (jobId, candidateEmail) unique exactly when no stored document has that pair |
| ApplicationModel.RewriteKeepsUnique | models/Application.js:76-78 | rewriting a document without changing its (jobId, candidateEmail) keeps the pairs unique |
| ApplicationController.ApplyGuard | controllers/applicationController.js:65-92 | 400 exactly when jobId, name or e-mail is missing; else 404 exactly when the job is unknown; else 409 exactly when an application for (jobId, lower-cased e-mail) exists; else no refusal |
| ApplicationController.Submission | controllers/applicationController.js:95-104 | the created document has the e-mail lower-cased, status applied, candidateId the caller's id or null, the body's name, and the body's phone, resume and cover letter, each null when absent from the body |
| ApplicationController.ApplyForJob | controllers/applicationController.js:61-114 | refuses exactly as the guard says, with the collection unchanged; otherwise adds exactly one document under a fresh id; the uniqueness invariant is kept |
| ApplicationController.ResubmissionRefused | controllers/applicationController.js:82-99 | after a successful application, applying again for the same job under any e-mail spelling that lower-cases alike is refused with 409 |
| ApplicationController.Reviewed | controllers/applicationController.js:123-135 | updatedAt is now; status, notes, rating and reviewedBy change only when supplied and truthy (a rating of 0 is never written), and are kept otherwise; reviewedAt is stamped exactly when a status is supplied; every other field is kept and the document stays well formed |
| ApplicationController.UpdateApplication | controllers/applicationController.js:119-158 | a status outside the enum or a rating outside 0..5 is a validation error; else an unknown id is 404; in both cases nothing changes; otherwise only that document is replaced by its reviewed form |
| ApplicationController.DeleteApplication | controllers/applicationController.js:163-181 | removes exactly that document, or returns 404 with the collection unchanged |
| ApplicationController.GetApplication | controllers/applicationController.js:35-56 | the document under the id, or 404 exactly when there is none |
| ApplicationController.GetApplications | controllers/applicationController.js:7-30 | exactly the documents matching every supplied filter (jobId, candidateId, status), each once, latest appliedAt first |
| ApplicationController.GetJobApplications | controllers/applicationController.js:186-200 | exactly the applications for that job, each once, latest first |
| ApplicationController.GetMyApplications | controllers/applicationController.js:205-219 | exactly the applications whose candidateId is the caller's id, latest first |
| Query.SelectSorted | controllers/applicationController.js:16-20 | the result holds exactly the keys satisfying the filter, without repeats, in non-decreasing order of the sort key |
| Common.ToLower | controllers/applicationController.js:84 | lower-casing keeps the length, maps each letter to its lower-case form and leaves a lower-case string |
| Common.ToLowerIdempotent | controllers/applicationController.js:99 | lower-casing a stored, already lower-cased e-mail changes nothing |
| JobModel.ParseType | models/job.js:16-20 | a job type is accepted exactly when it names full-time, part-time, contract or internship |
| JobModel.ParseStatus | models/job.js:48-52 | a job status is accepted exactly when it is active or closed |
| JobModel.Create | models/job.js:3-66 | a created job has its required strings non-empty, status active, isActive set (so the two agree), no applications counted, and timestamps now |
| JobController.CreateJobGuard | controllers/jobController.js:57-89 | in order: an empty body gives 400; a missing required field gives 400; a non-array list gives 400; an empty list gives 400; each happens exactly when the earlier checks passed |
| JobController.PostedJob | controllers/jobController.js:91-108 | the stored job is active with isActive set; salary is null unless a non-empty salary is given; given benefits are stored as cast, a list as it is and a lone string as a one-element list, and are empty otherwise; postedBy is the caller or absent |
| JobController.CreateJob | controllers/jobController.js:53-125 | refuses exactly as the guard says; an unknown type is a validation error; nothing is stored unless every check passes; otherwise exactly one job is added under a fresh id |
| JobController.GetJobs | controllers/jobController.js:6-25 | only active jobs, exactly those matching the supplied status, department and type, each once, newest first |
| JobController.GetJob | controllers/jobController.js:30-48 | the job under the id, or 404 exactly when there is none |
| JobController.PatchedJob | controllers/jobController.js:141-144 | every supplied field is written and every other field kept; status and isActive are written independently; timestamps: createdAt kept, updatedAt now; required strings stay non-empty |
| JobController.PatchCanBreakAgreement | controllers/jobController.js:141-144 | an update that writes status closed on an active job leaves status and isActive disagreeing |
| JobController.UpdateJob | controllers/jobController.js:130-154 | 404 first for an unknown id; then a value outside an enum or an empty required string is a validation error; both leave the collection unchanged; otherwise only that job is replaced by its patched form |
| JobController.DeleteJob | controllers/jobController.js:159-178 | removes exactly that job, or returns 404 with the collection unchanged |
| JobController.Toggled | controllers/jobController.js:194-196 | isActive is negated, status is active exactly when the new isActive is set, and only those two and the timestamp change |
| JobController.ToggleTwice | controllers/jobController.js:194-196 | toggling twice restores isActive, and restores the whole job (but its timestamp) when status agreed with isActive |
| JobController.ToggleJobStatus | controllers/jobController.js:183-206 | 404 with nothing changed for an unknown id; otherwise only that job is replaced by its toggled form |
| UserRecord.InsertKeepsUniqueEmails | controllers/authController.js:44-59 | registering under a new id keeps e-mails unique exactly when the new e-mail is not taken |
| AuthController.RegisterGuard | controllers/authController.js:22-50 | in order: a missing field gives 400; differing passwords give 400; a password under 6 characters gives 400; an existing lower-cased e-mail gives 409; each happens exactly when the earlier checks passed |
| AuthController.Registered | controllers/authController.js:19-59 | the new user stores the lower-cased e-mail and the hashed password; the role is candidate unless a non-empty role is given; there is no login time and no reset token |
| AuthController.Register | controllers/authController.js:17-78 | refuses exactly as the guard says, with no user stored; otherwise adds exactly one user under a fresh id; e-mails stay unique |
| AuthController.Login | controllers/authController.js:83-135 | 400 exactly when e-mail or password is missing; the same 401 exactly when no user authenticates, whether the e-mail is unknown or the password wrong; no other refusal and no thrown error, so once both guards pass the login succeeds; then only that user's lastLogin changes, to now |
| AuthController.RegisteredCanLogin | controllers/authController.js:53-111 | a newly registered user authenticates with the same password and any spelling of the e-mail that lower-cases alike, and no other user does |
| AuthController.PasswordChangeGuard | controllers/authController.js:167-196 | in order: a missing field gives 400; differing new passwords give 400; an unknown caller gives 404; a wrong current password gives 401; each happens exactly when the earlier checks passed |
| AuthController.UpdatePassword | controllers/authController.js:163-207 | refuses exactly as the guard says, with no user changed; otherwise only the caller's stored hash changes, to the new password's |
| AuthController.ForgotPassword | controllers/authController.js:212-253 | a body without an e-mail gives 500 and an unknown e-mail gives 404, both with nothing changed, and there is no other refusal; otherwise one user with that e-mail gets the token hash and expiry, and the raw token is returned |
| AuthController.ResetPassword | controllers/authController.js:258-296 | 400 exactly when no user holds the token's hash with an expiry after now; a validation error exactly when the token is valid but the body has no non-empty password; nothing changes on either; otherwise that user's password becomes the new hash, both reset fields are cleared, and the token no longer works |
| OfferModel.ParseStatus | models/Offer.js:57-61 | an offer status is accepted exactly when it is pending, accepted, rejected or expired |
| OfferModel.Create | models/Offer.js:3-81 | a created offer has its required strings non-empty, status pending, and null respondedAt and rejectionReason |
| OfferController.PassesValidators | models/Offer.js:20-51 | the schema also requires name, e-mail, position, department and validity date, which the handler does not check |
| OfferController.Drafted | controllers/offerController.js:86-101 | the stored offer carries the given fields; currency is USD unless given; benefits and documents are empty unless given; status is pending with no response |
| OfferController.MarkedOffered | controllers/offerController.js:104-108 | the application's status becomes offer and, apart from the timestamp, nothing else of it changes |
| OfferController.CreateOffer | controllers/offerController.js:60-118 | 400 exactly when an id, the salary or the start date is missing or falsy; else a validation error exactly when a schema-required field is missing; neither changes anything; otherwise one offer is added under a fresh id and the referenced application, if it exists, moves to offer |
| OfferController.Responded | controllers/offerController.js:125-133 | respondedAt becomes now exactly when a status is supplied; the body's own respondedAt is ignored; rejectionReason changes only when truthy; nothing else changes but the timestamp |
| OfferController.RespondedAtIgnoresBody | controllers/offerController.js:125-133 | the update result does not depend on the body's respondedAt |
| OfferController.UpdateOffer | controllers/offerController.js:123-156 | a status outside the enum is a validation error; else an unknown id is 404; neither changes anything; otherwise only that offer is replaced by its responded form |
| OfferController.DeleteOffer | controllers/offerController.js:161-179 | removes exactly that offer, or returns 404 with the collection unchanged |
| OfferController.GetOffer | controllers/offerController.js:34-55 | the offer under the id, or 404 exactly when there is none |
| OfferController.GetOffers | controllers/offerController.js:7-29 | exactly the offers matching the supplied status and candidateId, each once, newest first |
| OfferController.GetMyOffers | controllers/offerController.js:184-198 | exactly the offers made to the caller, newest first |
| InterviewModel.ParseType | models/Interview.js:25-29 | an interview type is accepted exactly when it is phone, video, in-person or group |
| InterviewModel.ParseStatus | models/Interview.js:52-56 | an interview status is accepted exactly when it is scheduled, completed, cancelled or rescheduled |
| InterviewModel.Create | models/Interview.js:3-85 | a created interview is scheduled, with no feedback, rating, notes or completion time |
| InterviewController.PassesValidators | models/Interview.js:15-29 | the schema also requires a candidate and a scheduler, and a type within the enum |
| InterviewController.Arranged | controllers/interviewController.js:83-94 | scheduledBy is the caller; the type is video, the duration 60 and the interviewer list empty unless supplied (an empty type or zero duration counts as not supplied); the status is scheduled |
| InterviewController.ScheduleInterview | controllers/interviewController.js:62-104 | 400 exactly when applicationId, jobId or scheduledDate is missing; else a validation error exactly when the schema's checks fail, including a missing candidateId; neither changes anything; otherwise one interview is added under a fresh id |
| InterviewController.Updated | controllers/interviewController.js:111-123 | only supplied truthy fields among status, feedback, rating, notes, scheduledDate and interviewers change; completedAt becomes now exactly when the status is completed; nothing else changes but the timestamp; the rating stays in 0..5 |
| InterviewController.CompletionIsKept | controllers/interviewController.js:121-123 | a completion time, once stamped, survives any later update that does not mark the interview completed again |
| InterviewController.UpdateInterview | controllers/interviewController.js:109-146 | a status outside the enum or a rating outside 0..5 is a validation error; else an unknown id is 404; neither changes anything; otherwise only that interview is replaced by its updated form |
| InterviewController.DeleteInterview | controllers/interviewController.js:151-169 | removes exactly that interview, or returns 404 with the collection unchanged |
| InterviewController.GetInterview | controllers/interviewController.js:35-57 | the interview under the id, or 404 exactly when there is none |
| InterviewController.GetInterviews | controllers/interviewController.js:6-30 | exactly the interviews matching the supplied jobId, candidateId and status, each once, earliest scheduledDate first |
| InterviewController.GetMyInterviews | controllers/interviewController.js:174-188 | exactly the caller's interviews, earliest first |
| EmployeeModel.ParseStatus | models/Employee.js:31-35 | an employee status is accepted exactly when it is active, probation, terminated, resigned or on-leave |
| EmployeeModel.Create | models/Employee.js:19-39 | a new employee is well formed, on probation, with salary 0 in USD, and joined now |
| EmployeeModel.RewriteKeepsUniqueKeys | models/Employee.js:4-13 | rewriting an employee keeps user and employee number unique exactly when no other employee holds either |
| EmployeeModel.DecimalRoundTrip | models/Employee.js:16 | reading back the decimal rendering of a number gives the number |
| EmployeeModel.DefaultEmployeeId | models/Employee.js:14-17 | the default employee number is "EMP-" followed by four digits denoting an integer in 1000..9999 |
| EmployeeController.GetEmployees | controllers/employeeController.js:7-22 | every employee exactly once, the most recent dateJoined first |
| EmployeeController.GetEmployee | controllers/employeeController.js:27-47 | the employee under the id, or 404 exactly when there is none |
| EmployeeController.Patched | controllers/employeeController.js:54-57 | every supplied field is written and the others kept; createdAt is kept and updatedAt is now; required strings stay non-empty |
| EmployeeController.UpdateEmployee | controllers/employeeController.js:52-73 | validation error first, then 404, then a duplicate-key error exactly when another employee holds the new user or employee number; none of them changes anything; otherwise only that employee is replaced |
| EmployeeController.DeleteEmployee | controllers/employeeController.js:78-103 | 404 with no user or employee changed for an unknown id; otherwise the linked user, if it exists, gets the candidate role and no other user changes, and exactly that employee is removed |
| Database.Store.constructor | models/Application.js:76-78 | an empty database with the given hash functions satisfies every collection's schema constraints and unique indexes (`Valid`) |
| Database.Store.NewId | controllers/applicationController.js:95-104 | the id `Application.create` (and every other create) gives the new document: no collection holds it yet, and every stored id stays below the generator, so `Valid` is kept |

## Left out

- Routing, the access middleware (`protect`, `authorize…`), the server set-up and the database connection. This is framework wiring and I/O. The caller is a parameter (`Option<Id>` where the handler reads `req.user?.id`).
- `generateToken` (JWT signing) is left out. A success returns the id the token would be signed for.
- bcrypt, the SHA-256 of reset tokens and their randomness are uninterpreted functions. bcrypt's salt is not modelled: `compare` is hash equality.
- models/User.js is not part of this model. The User record holds only the fields the handlers touch. Its schema validation, pre-save hook and `getResetPasswordToken` are not modelled. `ForgotPassword` therefore takes the raw token and the expiry as parameters, and stores the token's hash, which is what `resetPassword` looks up.
- `getMe` (controllers/authController.js:140-158) is a lookup by the caller's id with 404, outside the auth guard sequences. It is not modelled.
- `populate` (reference expansion) and the response envelopes (`success`, `count`, messages on success) are not modelled.
- The race between the lookup and the insert in `applyForJob` and `register` is left out: the model is sequential. The unique index is represented only as the store invariant.
- Files and cloud storage are not modelled. `resume` is the plain string from the body.
- A body value is either absent or of the field's type. JSON `null`, values of other types, and the casts Mongoose would attempt on them are not modelled. Dates are integers; a supplied date is taken as truthy.
- Lower-casing is ASCII only, and password length is counted in characters rather than UTF-16 code units.
- Errors passed to `next(err)` are `Thrown(kind)`. The error-handling middleware that turns them into HTTP codes is not part of this model.
- AuthController.ResetPassword: models/User.js is not part of this model, so a missing or empty password is taken to fail the schema's required validator on `save` (a thrown validation error, nothing stored). Any other password rule of that schema, such as a minimum length, is not modelled.
- Mongoose `Number` fields are modelled as integers: the application and interview ratings, the offer salary, the interview duration and the employee salary amount. Fractional values such as a rating of 4.5 are not represented, so the 0..5 range checks are stated over integers only.
- Database failures are not modelled. This includes a failing `save` in `forgotPassword`, which the source turns into the same 500 "Email could not be sent".
- JobController.PatchedJob: only the documented Job fields are in the update body. Writing postedBy, applicationsCount or timestamps through `req.body` is not modelled. The required validator on the list fields is not applied to an empty list.
- EmployeeController.Patched: salary is addressed by its two leaf fields. Replacing the whole `salary` object and writing `personalDetails` are not modelled.
- OfferController.GetMyOffers, InterviewController.GetMyInterviews, ApplicationController.GetMyApplications: the caller is assumed present. These routes are behind the login middleware, and the query with an undefined id is not modelled.
- Employees are created outside the six controllers. `EmployeeModel.Create` records the schema defaults only.
- An update through `updateJob` can leave status and isActive disagreeing (see `PatchCanBreakAgreement`). The agreement is therefore not part of `Store.Valid()`; it is proved only for creation and for the toggle.

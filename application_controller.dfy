/**
 * The application handlers: submitting an application (required fields, job
 * lookup, duplicate guard, insert), reviewing, deleting and listing.
 */
module ApplicationController {
  import opened Common
  import opened Query
  import opened ApplicationModel
  import JobModel
  import Database

  const MissingFields := Rejection(400, "Please provide all required fields (jobId, candidateName, candidateEmail)")
  const JobNotFound := Rejection(404, "Job not found")
  const AlreadyApplied := Rejection(409, "You have already applied for this job")
  const ApplicationNotFound := Rejection(404, "Application not found")

  /** The body of `POST /applications`; `resume` is a plain string from the body. */
  datatype ApplyBody = ApplyBody(
    jobId: Option<Id>,
    candidateName: Option<string>,
    candidateEmail: Option<string>,
    candidatePhone: Option<string>,
    resume: Option<string>,
    coverLetter: Option<string>)

  predicate HasRequiredFields(b: ApplyBody) {
    b.jobId.Some? && Present(b.candidateName) && Present(b.candidateEmail)
  }

  /**
   * The three guards of `applyForJob` in their order: required fields, then
   * the job's existence, then no application for (jobId, lower-cased e-mail).
   * Each rejection happens exactly when every earlier guard passed and its
   * own failed.
   */
  function ApplyGuard(b: ApplyBody, jobs: map<Id, JobModel.Job>, apps: map<Id, Application>): (r: Option<Rejection>)
    ensures r == Some(MissingFields) <==> !HasRequiredFields(b)
    ensures r == Some(JobNotFound) <==> HasRequiredFields(b) && b.jobId.value !in jobs
    ensures r == Some(AlreadyApplied) <==>
      HasRequiredFields(b) && b.jobId.value in jobs && HasApplied(apps, b.jobId.value, ToLower(b.candidateEmail.value))
    ensures r.None? <==>
      HasRequiredFields(b) && b.jobId.value in jobs && !HasApplied(apps, b.jobId.value, ToLower(b.candidateEmail.value))
  {
    if !HasRequiredFields(b) then Some(MissingFields)
    else if b.jobId.value !in jobs then Some(JobNotFound)
    else if HasApplied(apps, b.jobId.value, ToLower(b.candidateEmail.value)) then Some(AlreadyApplied)
    else None
  }

  /**
   * The document `applyForJob` creates: the e-mail lower-cased, status
   * applied, and the caller's id as candidateId (null when anonymous).
   */
  function Submission(b: ApplyBody, caller: Option<Id>, now: int): (a: Application)
    requires HasRequiredFields(b)
    ensures WellFormed(a) && IsLower(a.candidateEmail)
    ensures a.jobId == b.jobId.value && a.candidateEmail == ToLower(b.candidateEmail.value)
    ensures a.status == Applied && a.candidateId == caller
    ensures a.candidateName == b.candidateName.value && a.candidatePhone == b.candidatePhone
    ensures a.resume == b.resume && a.coverLetter == b.coverLetter
    ensures a.appliedAt == now && a.reviewedAt.None? && a.rating.None?
  {
    Create(b.jobId.value, caller, b.candidateName.value, ToLower(b.candidateEmail.value),
           b.candidatePhone, b.resume, b.coverLetter, Applied, now)
  }

  /**
   * `applyForJob`: a refusal leaves the collection as it was; a success adds
   * exactly one document under a fresh id, and the unique (jobId, e-mail)
   * index stays satisfied (part of `Valid`).
   */
  method ApplyForJob(s: Database.Store, b: ApplyBody, caller: Option<Id>, now: int) returns (r: Reply<Id>)
    requires s.Valid()
    modifies s`applications, s`nextId
    ensures s.Valid()
    ensures !r.Thrown?
    ensures r.Refused? <==> ApplyGuard(b, s.jobs, old(s.applications)).Some?
    ensures r.Refused? ==> Some(r.why) == ApplyGuard(b, s.jobs, old(s.applications))
    ensures r.Refused? ==> s.applications == old(s.applications)
    ensures r.Ok? ==> r.code == 201 && r.data !in old(s.applications)
    ensures r.Ok? ==> s.applications == old(s.applications)[r.data := Submission(b, caller, now)]
    ensures r.Ok? ==> |s.applications| == |old(s.applications)| + 1
  {
    if b.jobId.None? || !Present(b.candidateName) || !Present(b.candidateEmail) {
      return Refused(MissingFields);
    }
    var jobId := b.jobId.value;
    if jobId !in s.jobs {
      return Refused(JobNotFound);
    }
    var email := ToLower(b.candidateEmail.value);
    if exists id :: id in s.applications && s.applications[id].jobId == jobId && s.applications[id].candidateEmail == email {
      return Refused(AlreadyApplied);
    }
    var a := Submission(b, caller, now);
    var id := s.NewId();
    InsertKeepsUnique(s.applications, id, a);
    s.applications := s.applications[id := a];
    r := Ok(201, id);
  }

  /**
   * Once an application is stored, applying again for the same job under
   * any spelling of the e-mail that lower-cases alike is refused with 409.
   */
  lemma ResubmissionRefused(b: ApplyBody, again: ApplyBody, jobs: map<Id, JobModel.Job>,
                            apps: map<Id, Application>, id: Id, caller: Option<Id>, now: int)
    requires ApplyGuard(b, jobs, apps).None? && id !in apps
    requires HasRequiredFields(again) && again.jobId == b.jobId
    requires ToLower(again.candidateEmail.value) == ToLower(b.candidateEmail.value)
    ensures ApplyGuard(again, jobs, apps[id := Submission(b, caller, now)]) == Some(AlreadyApplied)
  {
    var after := apps[id := Submission(b, caller, now)];
    assert after[id].jobId == again.jobId.value && after[id].candidateEmail == ToLower(again.candidateEmail.value);
  }

  /** The body of `PUT /applications/:id`. */
  datatype ReviewBody = ReviewBody(
    status: Option<string>,
    notes: Option<string>,
    rating: Option<int>,
    reviewedBy: Option<Id>)

  /**
   * `runValidators` on the update document, which carries only the truthy
   * fields: a status in the enum and a rating within 0..5.
   */
  predicate ReviewPassesValidators(p: ReviewBody) {
    (Present(p.status) ==> ParseStatus(p.status.value).Some?)
    && (NonZero(p.rating) ==> RatingInRange(p.rating))
  }

  /**
   * A document after `updateApplication`: `updatedAt` is always `now`;
   * status, notes, rating and reviewedBy change only when supplied and truthy
   * (so a rating of 0 is never written); `reviewedAt` is stamped exactly when
   * a status is supplied; every other field is kept.
   */
  function Reviewed(a: Application, p: ReviewBody, now: int): (r: Application)
    requires ReviewPassesValidators(p)
    ensures r.updatedAt == now
    ensures Present(p.status) ==> StatusName(r.status) == p.status.value && r.reviewedAt == Some(now)
    ensures !Present(p.status) ==> r.status == a.status && r.reviewedAt == a.reviewedAt
    ensures r.notes == a.notes || (Present(p.notes) && r.notes == p.notes)
    ensures r.rating == a.rating || (NonZero(p.rating) && r.rating == p.rating)
    ensures p.reviewedBy.None? ==> r.reviewedBy == a.reviewedBy
    ensures Present(p.notes) ==> r.notes == p.notes
    ensures NonZero(p.rating) ==> r.rating == p.rating
    ensures p.reviewedBy.Some? ==> r.reviewedBy == p.reviewedBy
    ensures r.jobId == a.jobId && r.candidateEmail == a.candidateEmail && r.candidateId == a.candidateId
    ensures r.candidateName == a.candidateName && r.candidatePhone == a.candidatePhone
    ensures r.resume == a.resume && r.coverLetter == a.coverLetter
    ensures r.appliedAt == a.appliedAt && r.createdAt == a.createdAt
    ensures WellFormed(a) ==> WellFormed(r)
  {
    a.(status := if Present(p.status) then ParseStatus(p.status.value).value else a.status,
       notes := if Present(p.notes) then p.notes else a.notes,
       rating := if NonZero(p.rating) then p.rating else a.rating,
       reviewedBy := if p.reviewedBy.Some? then p.reviewedBy else a.reviewedBy,
       reviewedAt := if Present(p.status) then Some(now) else a.reviewedAt,
       updatedAt := now)
  }

  /**
   * `updateApplication`: the update document is built field by field, the
   * validators run on it before the lookup, then an unknown id gives 404.
   */
  method UpdateApplication(s: Database.Store, id: Id, p: ReviewBody, now: int) returns (r: Reply<Application>)
    requires s.Valid()
    modifies s`applications
    ensures s.Valid()
    ensures r.Thrown? <==> !ReviewPassesValidators(p)
    ensures r.Thrown? ==> r.error == ValidationError
    ensures r.Refused? <==> ReviewPassesValidators(p) && id !in old(s.applications)
    ensures r.Refused? ==> r.why == ApplicationNotFound
    ensures !r.Ok? ==> s.applications == old(s.applications)
    ensures r.Ok? ==> r.code == 200 && id in old(s.applications)
    ensures r.Ok? ==> r.data == Reviewed(old(s.applications)[id], p, now)
    ensures r.Ok? ==> s.applications == old(s.applications)[id := r.data]
  {
    var setStatus: Option<string> := None;
    var setNotes: Option<string> := None;
    var setRating: Option<int> := None;
    var setReviewedBy: Option<Id> := None;
    var setReviewedAt: Option<int> := None;
    if Present(p.status) { setStatus := p.status; }
    if Present(p.notes) { setNotes := p.notes; }
    if NonZero(p.rating) { setRating := p.rating; }
    if p.reviewedBy.Some? { setReviewedBy := p.reviewedBy; }
    if Present(p.status) { setReviewedAt := Some(now); }

    if (setStatus.Some? && ParseStatus(setStatus.value).None?) || !RatingInRange(setRating) {
      return Thrown(ValidationError);
    }
    if id !in s.applications {
      return Refused(ApplicationNotFound);
    }
    var a := s.applications[id];
    a := a.(updatedAt := now);
    if setStatus.Some? { a := a.(status := ParseStatus(setStatus.value).value); }
    if setNotes.Some? { a := a.(notes := setNotes); }
    if setRating.Some? { a := a.(rating := setRating); }
    if setReviewedBy.Some? { a := a.(reviewedBy := setReviewedBy); }
    if setReviewedAt.Some? { a := a.(reviewedAt := setReviewedAt); }
    RewriteKeepsUnique(s.applications, id, a);
    s.applications := s.applications[id := a];
    r := Ok(200, a);
  }

  /** `deleteApplication`: removes exactly that document, or 404 with nothing removed. */
  method DeleteApplication(s: Database.Store, id: Id) returns (r: Reply<()>)
    requires s.Valid()
    modifies s`applications
    ensures s.Valid()
    ensures r.Ok? <==> id in old(s.applications)
    ensures r.Ok? ==> r.code == 200 && s.applications == old(s.applications) - {id}
    ensures !r.Ok? ==> r == Refused(ApplicationNotFound) && s.applications == old(s.applications)
  {
    if id !in s.applications {
      return Refused(ApplicationNotFound);
    }
    s.applications := s.applications - {id};
    r := Ok(200, ());
  }

  /** `getApplication`: the document under `id`, or 404. */
  method GetApplication(s: Database.Store, id: Id) returns (r: Reply<Application>)
    ensures r.Ok? <==> id in s.applications
    ensures r.Ok? ==> r.code == 200 && r.data == s.applications[id]
    ensures !r.Ok? ==> r == Refused(ApplicationNotFound)
  {
    if id !in s.applications {
      return Refused(ApplicationNotFound);
    }
    r := Ok(200, s.applications[id]);
  }

  /** The query `getApplications` builds: each truthy parameter adds one condition. */
  datatype ApplicationQuery = ApplicationQuery(jobId: Option<Id>, candidateId: Option<Id>, status: Option<string>)

  predicate Matches(q: ApplicationQuery, a: Application) {
    (q.jobId.Some? ==> a.jobId == q.jobId.value)
    && (q.candidateId.Some? ==> a.candidateId == q.candidateId)
    && (Present(q.status) ==> StatusName(a.status) == q.status.value)
  }

  /**
   * `getApplications`: the ids of exactly the documents matching every
   * supplied filter, each once, newest `appliedAt` first.
   */
  method GetApplications(s: Database.Store, q: ApplicationQuery) returns (r: seq<Id>)
    ensures forall id :: id in r <==> id in s.applications && Matches(q, s.applications[id])
    ensures Distinct(r)
    ensures forall i, j :: 0 <= i < j < |r| ==>
      r[i] in s.applications && r[j] in s.applications &&
      s.applications[r[i]].appliedAt >= s.applications[r[j]].appliedAt
  {
    var apps := s.applications;
    r := SelectSorted(apps.Keys, id => id in apps && Matches(q, apps[id]),
                      id => if id in apps then -apps[id].appliedAt else 0);
  }

  /** `getJobApplications`: the applications for one job, newest first. */
  method GetJobApplications(s: Database.Store, jobId: Id) returns (r: seq<Id>)
    ensures forall id :: id in r <==> id in s.applications && s.applications[id].jobId == jobId
    ensures Distinct(r)
    ensures forall i, j :: 0 <= i < j < |r| ==>
      r[i] in s.applications && r[j] in s.applications &&
      s.applications[r[i]].appliedAt >= s.applications[r[j]].appliedAt
  {
    r := GetApplications(s, ApplicationQuery(Some(jobId), None, None));
  }

  /**
   * `getMyApplications`: exactly the applications whose candidateId is the
   * caller's id, newest first. Anonymous applications carrying the caller's
   * e-mail are not included.
   */
  method GetMyApplications(s: Database.Store, caller: Id) returns (r: seq<Id>)
    ensures forall id :: id in r <==> id in s.applications && s.applications[id].candidateId == Some(caller)
    ensures Distinct(r)
    ensures forall i, j :: 0 <= i < j < |r| ==>
      r[i] in s.applications && r[j] in s.applications &&
      s.applications[r[i]].appliedAt >= s.applications[r[j]].appliedAt
  {
    r := GetApplications(s, ApplicationQuery(None, Some(caller), None));
  }
}

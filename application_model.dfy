/**
 * The Application schema: one candidate's submission for one job, its status
 * enum, defaults, rating bounds and the unique (jobId, candidateEmail) index.
 */
module ApplicationModel {
  import opened Common

  datatype ApplicationStatus = Applied | UnderReview | Shortlisted | Rejected | Interview | Offer

  function StatusName(st: ApplicationStatus): string {
    match st
    case Applied => "applied"
    case UnderReview => "under-review"
    case Shortlisted => "shortlisted"
    case Rejected => "rejected"
    case Interview => "interview"
    case Offer => "offer"
  }

  /** The schema's enum check: the status whose name is `s`, if there is one. */
  function ParseStatus(s: string): (r: Option<ApplicationStatus>)
    ensures forall st :: r == Some(st) <==> StatusName(st) == s
  {
    if s == "applied" then Some(Applied)
    else if s == "under-review" then Some(UnderReview)
    else if s == "shortlisted" then Some(Shortlisted)
    else if s == "rejected" then Some(Rejected)
    else if s == "interview" then Some(Interview)
    else if s == "offer" then Some(Offer)
    else None
  }

  datatype Application = Application(
    jobId: Id,
    candidateId: Option<Id>,
    candidateName: string,
    candidateEmail: string,
    candidatePhone: Option<string>,
    resume: Option<string>,
    coverLetter: Option<string>,
    status: ApplicationStatus,
    appliedAt: int,
    reviewedAt: Option<int>,
    reviewedBy: Option<Id>,
    notes: Option<string>,
    rating: Option<int>,
    createdAt: int,
    updatedAt: int)

  /** `min: 0, max: 5` on an optional number. */
  predicate RatingInRange(rating: Option<int>) {
    rating.None? || 0 <= rating.value <= 5
  }

  /** What the schema demands of a stored document. */
  predicate WellFormed(a: Application) {
    a.candidateName != "" && a.candidateEmail != "" && RatingInRange(a.rating)
  }

  /** Some application for `jobId` already carries `email`. */
  predicate HasApplied(apps: map<Id, Application>, jobId: Id, email: string) {
    exists id :: id in apps && apps[id].jobId == jobId && apps[id].candidateEmail == email
  }

  /** The unique index `{ jobId: 1, candidateEmail: 1 }`. */
  predicate UniquePairs(apps: map<Id, Application>) {
    forall i, j :: i in apps && j in apps && i != j ==>
      apps[i].jobId != apps[j].jobId || apps[i].candidateEmail != apps[j].candidateEmail
  }

  /** The collection invariant: every document well formed, e-mails lower-case, pairs unique. */
  predicate ApplicationsValid(apps: map<Id, Application>) {
    (forall id :: id in apps ==> WellFormed(apps[id]) && IsLower(apps[id].candidateEmail))
    && UniquePairs(apps)
  }

  /**
   * The unique index admits a new document exactly when no stored document
   * has its (jobId, candidateEmail) pair.
   */
  lemma InsertKeepsUnique(apps: map<Id, Application>, id: Id, a: Application)
    requires UniquePairs(apps) && id !in apps
    ensures UniquePairs(apps[id := a]) <==> !HasApplied(apps, a.jobId, a.candidateEmail)
  {
    var m := apps[id := a];
    if HasApplied(apps, a.jobId, a.candidateEmail) {
      var other :| other in apps && apps[other].jobId == a.jobId && apps[other].candidateEmail == a.candidateEmail;
      assert other in m && id in m && other != id && m[other].jobId == m[id].jobId && m[other].candidateEmail == m[id].candidateEmail;
    }
  }

  /** Rewriting a document without touching its pair keeps the index satisfied. */
  lemma RewriteKeepsUnique(apps: map<Id, Application>, id: Id, a: Application)
    requires UniquePairs(apps) && id in apps
    requires a.jobId == apps[id].jobId && a.candidateEmail == apps[id].candidateEmail
    ensures UniquePairs(apps[id := a])
  {
  }

  /**
   * `Application.create`: the given fields as they are, the schema's null
   * defaults for the review fields, notes and rating, and timestamps at `now`.
   */
  function Create(jobId: Id, candidateId: Option<Id>, candidateName: string, candidateEmail: string,
                  candidatePhone: Option<string>, resume: Option<string>, coverLetter: Option<string>,
                  status: ApplicationStatus, now: int): (a: Application)
    requires candidateName != "" && candidateEmail != ""
    ensures WellFormed(a)
    ensures a.jobId == jobId && a.candidateId == candidateId && a.status == status
    ensures a.candidateName == candidateName && a.candidateEmail == candidateEmail
    ensures a.candidatePhone == candidatePhone && a.resume == resume && a.coverLetter == coverLetter
    ensures a.reviewedAt.None? && a.reviewedBy.None? && a.notes.None? && a.rating.None?
    ensures a.appliedAt == now && a.createdAt == now && a.updatedAt == now
  {
    Application(jobId, candidateId, candidateName, candidateEmail, candidatePhone, resume, coverLetter,
                status, now, None, None, None, None, now, now)
  }
}

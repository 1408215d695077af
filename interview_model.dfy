/** The Interview schema: required references, type and status enums, defaults, rating bounds. */
module InterviewModel {
  import opened Common

  datatype InterviewType = Phone | Video | InPerson | Group

  datatype InterviewStatus = Scheduled | Completed | Cancelled | Rescheduled

  function TypeName(t: InterviewType): string {
    match t
    case Phone => "phone"
    case Video => "video"
    case InPerson => "in-person"
    case Group => "group"
  }

  /** The enum check on `interviewType`. */
  function ParseType(s: string): (r: Option<InterviewType>)
    ensures forall t :: r == Some(t) <==> TypeName(t) == s
  {
    if s == "phone" then Some(Phone)
    else if s == "video" then Some(Video)
    else if s == "in-person" then Some(InPerson)
    else if s == "group" then Some(Group)
    else None
  }

  function StatusName(st: InterviewStatus): string {
    match st
    case Scheduled => "scheduled"
    case Completed => "completed"
    case Cancelled => "cancelled"
    case Rescheduled => "rescheduled"
  }

  /** The enum check on `status`. */
  function ParseStatus(s: string): (r: Option<InterviewStatus>)
    ensures forall st :: r == Some(st) <==> StatusName(st) == s
  {
    if s == "scheduled" then Some(Scheduled)
    else if s == "completed" then Some(Completed)
    else if s == "cancelled" then Some(Cancelled)
    else if s == "rescheduled" then Some(Rescheduled)
    else None
  }

  datatype Interview = Interview(
    applicationId: Id,
    jobId: Id,
    candidateId: Id,
    scheduledBy: Id,
    interviewType: InterviewType,
    scheduledDate: int,
    duration: int,
    interviewers: seq<Id>,
    meetingLink: Option<string>,
    location: Option<string>,
    status: InterviewStatus,
    feedback: Option<string>,
    rating: Option<int>,
    notes: Option<string>,
    completedAt: Option<int>,
    createdAt: int,
    updatedAt: int)

  /** `min: 0, max: 5` on an optional number. */
  predicate RatingInRange(rating: Option<int>) {
    rating.None? || 0 <= rating.value <= 5
  }

  predicate InterviewsValid(interviews: map<Id, Interview>) {
    forall id :: id in interviews ==> RatingInRange(interviews[id].rating)
  }

  /**
   * `Interview.create`: the given fields, the schema's defaults (status
   * scheduled; feedback, rating, notes and completedAt null), timestamps at `now`.
   */
  function Create(applicationId: Id, jobId: Id, candidateId: Id, scheduledBy: Id,
                  interviewType: InterviewType, scheduledDate: int, duration: int,
                  interviewers: seq<Id>, meetingLink: Option<string>, location: Option<string>,
                  now: int): (i: Interview)
    ensures RatingInRange(i.rating)
    ensures i.status == Scheduled && i.completedAt.None?
    ensures i.feedback.None? && i.rating.None? && i.notes.None?
    ensures i.createdAt == now && i.updatedAt == now
  {
    Interview(applicationId, jobId, candidateId, scheduledBy, interviewType, scheduledDate, duration,
              interviewers, meetingLink, location, Scheduled, None, None, None, None, now, now)
  }
}

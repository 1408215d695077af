/**
 * The interview handlers: scheduling (handler check, then the schema's
 * validators and defaults), updating with the completion stamp, deleting and
 * listing in date order.
 */
module InterviewController {
  import opened Common
  import opened Query
  import opened InterviewModel
  import Database

  const MissingFields := Rejection(400, "Please provide all required fields")
  const InterviewNotFound := Rejection(404, "Interview not found")

  /** The interview length in minutes when none is given. */
  const DefaultDuration := 60

  /** The body of `POST /interviews`. */
  datatype ScheduleBody = ScheduleBody(
    applicationId: Option<Id>,
    jobId: Option<Id>,
    candidateId: Option<Id>,
    interviewType: Option<string>,
    scheduledDate: Option<int>,
    duration: Option<int>,
    interviewers: Option<seq<Id>>,
    meetingLink: Option<string>,
    location: Option<string>)

  /** The handler's own check. */
  predicate HasRequiredFields(b: ScheduleBody) {
    b.applicationId.Some? && b.jobId.Some? && b.scheduledDate.Some?
  }

  /** The type actually written: `interviewType || 'video'`. */
  function EffectiveType(b: ScheduleBody): string {
    OrElse(b.interviewType, "video")
  }

  /**
   * The schema's validators on the created document: a candidate and a
   * scheduler (the caller) are required, and the type must be in the enum.
   */
  predicate PassesValidators(b: ScheduleBody, caller: Option<Id>) {
    b.candidateId.Some? && caller.Some? && ParseType(EffectiveType(b)).Some?
  }

  /**
   * The interview `scheduleInterview` stores: type video, 60 minutes and no
   * interviewers unless supplied (an empty type or a zero duration counts as
   * not supplied), scheduled by the caller, status scheduled, no outcome yet.
   */
  function Arranged(b: ScheduleBody, caller: Option<Id>, now: int): (i: Interview)
    requires HasRequiredFields(b) && PassesValidators(b, caller)
    ensures i.applicationId == b.applicationId.value && i.jobId == b.jobId.value
    ensures i.candidateId == b.candidateId.value && i.scheduledBy == caller.value
    ensures i.scheduledDate == b.scheduledDate.value
    ensures Present(b.interviewType) ==> TypeName(i.interviewType) == b.interviewType.value
    ensures !Present(b.interviewType) ==> i.interviewType == Video
    ensures NonZero(b.duration) ==> i.duration == b.duration.value
    ensures !NonZero(b.duration) ==> i.duration == DefaultDuration
    ensures i.interviewers == (if b.interviewers.Some? then b.interviewers.value else [])
    ensures i.meetingLink == b.meetingLink && i.location == b.location
    ensures i.status == Scheduled && i.completedAt.None? && i.rating.None?
    ensures i.feedback.None? && i.notes.None? && i.createdAt == now
  {
    Create(b.applicationId.value, b.jobId.value, b.candidateId.value, caller.value,
           ParseType(EffectiveType(b)).value, b.scheduledDate.value,
           if NonZero(b.duration) then b.duration.value else DefaultDuration,
           Override(b.interviewers, []), b.meetingLink, b.location, now)
  }

  /** `scheduleInterview`: the handler's 400, then the validators, then one new interview. */
  method ScheduleInterview(s: Database.Store, b: ScheduleBody, caller: Option<Id>, now: int) returns (r: Reply<Id>)
    requires s.Valid()
    modifies s`interviews, s`nextId
    ensures s.Valid()
    ensures r.Refused? <==> !HasRequiredFields(b)
    ensures r.Refused? ==> r.why == MissingFields
    ensures r.Thrown? <==> HasRequiredFields(b) && !PassesValidators(b, caller)
    ensures r.Thrown? ==> r.error == ValidationError
    ensures !r.Ok? ==> s.interviews == old(s.interviews)
    ensures r.Ok? ==> r.code == 201 && r.data !in old(s.interviews)
    ensures r.Ok? ==> s.interviews == old(s.interviews)[r.data := Arranged(b, caller, now)]
  {
    if !HasRequiredFields(b) {
      return Refused(MissingFields);
    }
    if !PassesValidators(b, caller) {
      return Thrown(ValidationError);
    }
    var i := Arranged(b, caller, now);
    var id := s.NewId();
    s.interviews := s.interviews[id := i];
    r := Ok(201, id);
  }

  /** The body of `PUT /interviews/:id`. */
  datatype InterviewPatch = InterviewPatch(
    status: Option<string>,
    feedback: Option<string>,
    rating: Option<int>,
    notes: Option<string>,
    scheduledDate: Option<int>,
    interviewers: Option<seq<Id>>)

  /** `runValidators` on the update document: a written status in the enum, a written rating in 0..5. */
  predicate PatchPassesValidators(p: InterviewPatch) {
    (Present(p.status) ==> ParseStatus(p.status.value).Some?)
    && (NonZero(p.rating) ==> RatingInRange(p.rating))
  }

  /**
   * An interview after `updateInterview`: each truthy field is written and
   * the others kept (a rating of 0 is never written); completedAt becomes
   * `now` exactly when the status is "completed"; nothing else changes but
   * the timestamp.
   */
  function Updated(i: Interview, p: InterviewPatch, now: int): (r: Interview)
    requires PatchPassesValidators(p)
    ensures Present(p.status) ==> StatusName(r.status) == p.status.value
    ensures !Present(p.status) ==> r.status == i.status
    ensures p.status == Some("completed") ==> r.status == Completed && r.completedAt == Some(now)
    ensures p.status != Some("completed") ==> r.completedAt == i.completedAt
    ensures Present(p.feedback) ==> r.feedback == p.feedback
    ensures !Present(p.feedback) ==> r.feedback == i.feedback
    ensures NonZero(p.rating) ==> r.rating == p.rating
    ensures !NonZero(p.rating) ==> r.rating == i.rating
    ensures Present(p.notes) ==> r.notes == p.notes
    ensures !Present(p.notes) ==> r.notes == i.notes
    ensures Sets(p.scheduledDate, i.scheduledDate, r.scheduledDate)
    ensures Sets(p.interviewers, i.interviewers, r.interviewers)
    ensures r.updatedAt == now
    ensures r.(status := i.status, feedback := i.feedback, rating := i.rating, notes := i.notes,
               scheduledDate := i.scheduledDate, interviewers := i.interviewers,
               completedAt := i.completedAt, updatedAt := i.updatedAt) == i
    ensures RatingInRange(i.rating) ==> RatingInRange(r.rating)
  {
    i.(status := if Present(p.status) then ParseStatus(p.status.value).value else i.status,
       feedback := if Present(p.feedback) then p.feedback else i.feedback,
       rating := if NonZero(p.rating) then p.rating else i.rating,
       notes := if Present(p.notes) then p.notes else i.notes,
       scheduledDate := Override(p.scheduledDate, i.scheduledDate),
       interviewers := Override(p.interviewers, i.interviewers),
       completedAt := if p.status == Some("completed") then Some(now) else i.completedAt,
       updatedAt := now)
  }

  /**
   * An interview marked completed carries its completion time, and a later
   * update that does not mark it completed again keeps that time.
   */
  lemma CompletionIsKept(i: Interview, p: InterviewPatch, q: InterviewPatch, t1: int, t2: int)
    requires PatchPassesValidators(p) && PatchPassesValidators(q)
    requires p.status == Some("completed") && q.status != Some("completed")
    ensures Updated(Updated(i, p, t1), q, t2).completedAt == Some(t1)
  {
  }

  /** `updateInterview`: validators on the update document, then 404, then the update. */
  method UpdateInterview(s: Database.Store, id: Id, p: InterviewPatch, now: int) returns (r: Reply<Interview>)
    requires s.Valid()
    modifies s`interviews
    ensures s.Valid()
    ensures r.Thrown? <==> !PatchPassesValidators(p)
    ensures r.Thrown? ==> r.error == ValidationError
    ensures r.Refused? <==> PatchPassesValidators(p) && id !in old(s.interviews)
    ensures r.Refused? ==> r.why == InterviewNotFound
    ensures !r.Ok? ==> s.interviews == old(s.interviews)
    ensures r.Ok? ==> r.code == 200 && id in old(s.interviews) && r.data == Updated(old(s.interviews)[id], p, now)
    ensures r.Ok? ==> s.interviews == old(s.interviews)[id := r.data]
  {
    var setStatus: Option<string> := None;
    var setFeedback: Option<string> := None;
    var setRating: Option<int> := None;
    var setNotes: Option<string> := None;
    var setDate: Option<int> := None;
    var setInterviewers: Option<seq<Id>> := None;
    var setCompletedAt: Option<int> := None;
    if Present(p.status) { setStatus := p.status; }
    if Present(p.feedback) { setFeedback := p.feedback; }
    if NonZero(p.rating) { setRating := p.rating; }
    if Present(p.notes) { setNotes := p.notes; }
    if p.scheduledDate.Some? { setDate := p.scheduledDate; }
    if p.interviewers.Some? { setInterviewers := p.interviewers; }
    if p.status == Some("completed") { setCompletedAt := Some(now); }

    if (setStatus.Some? && ParseStatus(setStatus.value).None?) || !RatingInRange(setRating) {
      return Thrown(ValidationError);
    }
    if id !in s.interviews {
      return Refused(InterviewNotFound);
    }
    var current := s.interviews[id];
    var i := current.(
      status := if setStatus.Some? then ParseStatus(setStatus.value).value else current.status,
      feedback := if setFeedback.Some? then setFeedback else current.feedback,
      rating := if setRating.Some? then setRating else current.rating,
      notes := if setNotes.Some? then setNotes else current.notes,
      scheduledDate := if setDate.Some? then setDate.value else current.scheduledDate,
      interviewers := if setInterviewers.Some? then setInterviewers.value else current.interviewers,
      completedAt := if setCompletedAt.Some? then setCompletedAt else current.completedAt,
      updatedAt := now);
    s.interviews := s.interviews[id := i];
    r := Ok(200, i);
  }

  /** `deleteInterview`: removes exactly that interview, or 404 with nothing removed. */
  method DeleteInterview(s: Database.Store, id: Id) returns (r: Reply<()>)
    requires s.Valid()
    modifies s`interviews
    ensures s.Valid()
    ensures r.Ok? <==> id in old(s.interviews)
    ensures r.Ok? ==> r.code == 200 && s.interviews == old(s.interviews) - {id}
    ensures !r.Ok? ==> r == Refused(InterviewNotFound) && s.interviews == old(s.interviews)
  {
    if id !in s.interviews {
      return Refused(InterviewNotFound);
    }
    s.interviews := s.interviews - {id};
    r := Ok(200, ());
  }

  /** `getInterview`: the interview under `id`, or 404. */
  method GetInterview(s: Database.Store, id: Id) returns (r: Reply<Interview>)
    ensures r.Ok? <==> id in s.interviews
    ensures r.Ok? ==> r.code == 200 && r.data == s.interviews[id]
    ensures !r.Ok? ==> r == Refused(InterviewNotFound)
  {
    if id !in s.interviews {
      return Refused(InterviewNotFound);
    }
    r := Ok(200, s.interviews[id]);
  }

  /** The query `getInterviews` builds from its truthy parameters. */
  datatype InterviewQuery = InterviewQuery(jobId: Option<Id>, candidateId: Option<Id>, status: Option<string>)

  predicate Matches(q: InterviewQuery, i: Interview) {
    (q.jobId.Some? ==> i.jobId == q.jobId.value)
    && (q.candidateId.Some? ==> i.candidateId == q.candidateId.value)
    && (Present(q.status) ==> StatusName(i.status) == q.status.value)
  }

  /** `getInterviews`: exactly the matching interviews, each once, earliest `scheduledDate` first. */
  method GetInterviews(s: Database.Store, q: InterviewQuery) returns (r: seq<Id>)
    ensures forall id :: id in r <==> id in s.interviews && Matches(q, s.interviews[id])
    ensures Distinct(r)
    ensures forall i, j :: 0 <= i < j < |r| ==>
      r[i] in s.interviews && r[j] in s.interviews
      && s.interviews[r[i]].scheduledDate <= s.interviews[r[j]].scheduledDate
  {
    var interviews := s.interviews;
    r := SelectSorted(interviews.Keys, id => id in interviews && Matches(q, interviews[id]),
                      id => if id in interviews then interviews[id].scheduledDate else 0);
  }

  /** `getMyInterviews`: exactly the caller's interviews, earliest first. */
  method GetMyInterviews(s: Database.Store, caller: Id) returns (r: seq<Id>)
    ensures forall id :: id in r <==> id in s.interviews && s.interviews[id].candidateId == caller
    ensures Distinct(r)
    ensures forall i, j :: 0 <= i < j < |r| ==>
      r[i] in s.interviews && r[j] in s.interviews
      && s.interviews[r[i]].scheduledDate <= s.interviews[r[j]].scheduledDate
  {
    r := GetInterviews(s, InterviewQuery(None, Some(caller), None));
  }
}

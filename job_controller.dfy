/**
 * The job handlers: posting a job (validation and defaults), the public
 * listing, lookup, update, delete, and the active/closed toggle.
 */
module JobController {
  import opened Common
  import opened Query
  import opened JobModel
  import Database

  const EmptyBody := Rejection(400, "Request body is empty")
  const MissingJobFields := Rejection(400, "Please provide all required fields")
  const NotArrays := Rejection(400, "Skills, requirements, and responsibilities must be arrays")
  const EmptyLists := Rejection(400, "Skills, requirements, and responsibilities must have at least one item")
  const JobNotFound := Rejection(404, "Job not found")

  /** A list field of a request body: a JSON array of strings, or a plain string. */
  datatype ListValue = Text(text: string) | Items(items: seq<string>)

  /** `if (field)` on an optional list field: an array is always truthy, a string when non-empty. */
  predicate ListPresent(v: Option<ListValue>) {
    v.Some? && (v.value.Items? || v.value.text != "")
  }

  /** `Array.isArray(field)`. */
  predicate IsArray(v: Option<ListValue>) {
    v.Some? && v.value.Items?
  }

  /**
   * The body of `POST /jobs` (`jobType` is the body's `type` key);
   * `otherKeys` says whether it carries any key besides these ten.
   */
  datatype JobBody = JobBody(
    title: Option<string>,
    department: Option<string>,
    location: Option<string>,
    jobType: Option<string>,
    salary: Option<string>,
    description: Option<string>,
    skills: Option<ListValue>,
    requirements: Option<ListValue>,
    responsibilities: Option<ListValue>,
    benefits: Option<ListValue>,
    otherKeys: bool)

  /** `Object.keys(req.body).length === 0`. */
  predicate IsEmpty(b: JobBody) {
    !b.otherKeys && b.title.None? && b.department.None? && b.location.None? && b.jobType.None? && b.salary.None?
    && b.description.None? && b.skills.None? && b.requirements.None? && b.responsibilities.None?
    && b.benefits.None?
  }

  predicate HasRequiredFields(b: JobBody) {
    Present(b.title) && Present(b.department) && Present(b.location) && Present(b.jobType)
    && Present(b.description) && ListPresent(b.skills) && ListPresent(b.requirements)
    && ListPresent(b.responsibilities)
  }

  predicate ListsAreArrays(b: JobBody) {
    IsArray(b.skills) && IsArray(b.requirements) && IsArray(b.responsibilities)
  }

  predicate NoListEmpty(b: JobBody)
    requires ListsAreArrays(b)
  {
    |b.skills.value.items| > 0 && |b.requirements.value.items| > 0 && |b.responsibilities.value.items| > 0
  }

  /**
   * The four guards of `createJob` in their order: a non-empty body, the
   * required fields, the three lists being arrays, the three lists being
   * non-empty. Each rejection happens exactly when the earlier guards passed
   * and its own failed.
   */
  function CreateJobGuard(b: JobBody): (r: Option<Rejection>)
    ensures r == Some(EmptyBody) <==> IsEmpty(b)
    ensures r == Some(MissingJobFields) <==> !IsEmpty(b) && !HasRequiredFields(b)
    ensures r == Some(NotArrays) <==> !IsEmpty(b) && HasRequiredFields(b) && !ListsAreArrays(b)
    ensures r == Some(EmptyLists) <==>
      !IsEmpty(b) && HasRequiredFields(b) && ListsAreArrays(b) && !NoListEmpty(b)
    ensures r.None? <==> HasRequiredFields(b) && ListsAreArrays(b) && NoListEmpty(b)
  {
    if IsEmpty(b) then Some(EmptyBody)
    else if !HasRequiredFields(b) then Some(MissingJobFields)
    else if !ListsAreArrays(b) then Some(NotArrays)
    else if !NoListEmpty(b) then Some(EmptyLists)
    else None
  }

  /** Mongoose's cast of a list field to `[String]`: a lone string becomes a one-element list. */
  function CastList(v: Option<ListValue>): seq<string>
    requires ListPresent(v)
  {
    match v.value
    case Items(xs) => xs
    case Text(t) => [t]
  }

  /**
   * The document `createJob` stores: status active and isActive set, salary
   * null unless supplied, benefits `[]` unless supplied, postedBy only when a
   * user is present.
   */
  function PostedJob(b: JobBody, t: JobType, caller: Option<Id>, now: int): (j: Job)
    requires CreateJobGuard(b).None?
    ensures WellFormed(j) && StatusAgrees(j)
    ensures j.status == Active && j.isActive && j.applicationsCount == 0
    ensures j.title == b.title.value && j.department == b.department.value
    ensures j.location == b.location.value && j.description == b.description.value
    ensures j.jobType == t
    ensures j.skills == b.skills.value.items && j.requirements == b.requirements.value.items
    ensures j.responsibilities == b.responsibilities.value.items
    ensures Present(b.salary) ==> j.salary == b.salary
    ensures !Present(b.salary) ==> j.salary.None?
    ensures ListPresent(b.benefits) ==> j.benefits == CastList(b.benefits)
    ensures !ListPresent(b.benefits) ==> j.benefits == []
    ensures j.postedBy == caller
    ensures j.createdAt == now
  {
    Create(b.title.value, b.department.value, b.location.value, t, OrNull(b.salary),
           b.description.value, b.skills.value.items, b.requirements.value.items,
           b.responsibilities.value.items,
           if ListPresent(b.benefits) then CastList(b.benefits) else [],
           caller, now)
  }

  /**
   * `createJob`: the guards, then `Job.create`, whose enum validator refuses
   * an unknown type; nothing is stored unless every check passes.
   */
  method CreateJob(s: Database.Store, b: JobBody, caller: Option<Id>, now: int) returns (r: Reply<Id>)
    requires s.Valid()
    modifies s`jobs, s`nextId
    ensures s.Valid()
    ensures r.Refused? <==> CreateJobGuard(b).Some?
    ensures r.Refused? ==> Some(r.why) == CreateJobGuard(b)
    ensures r.Thrown? <==> CreateJobGuard(b).None? && ParseType(b.jobType.value).None?
    ensures r.Thrown? ==> r.error == ValidationError
    ensures !r.Ok? ==> s.jobs == old(s.jobs)
    ensures r.Ok? ==> r.code == 201 && r.data !in old(s.jobs)
    ensures r.Ok? ==> s.jobs == old(s.jobs)[r.data := PostedJob(b, ParseType(b.jobType.value).value, caller, now)]
  {
    var guard := CreateJobGuard(b);
    if guard.Some? {
      return Refused(guard.value);
    }
    var t := ParseType(b.jobType.value);
    if t.None? {
      return Thrown(ValidationError);
    }
    var j := PostedJob(b, t.value, caller, now);
    var id := s.NewId();
    s.jobs := s.jobs[id := j];
    r := Ok(201, id);
  }

  /** The query `getJobs` builds: always `isActive: true`, plus each truthy parameter. */
  datatype JobQuery = JobQuery(status: Option<string>, department: Option<string>, jobType: Option<string>)

  predicate Matches(q: JobQuery, j: Job) {
    j.isActive
    && (Present(q.status) ==> StatusName(j.status) == q.status.value)
    && (Present(q.department) ==> j.department == q.department.value)
    && (Present(q.jobType) ==> TypeName(j.jobType) == q.jobType.value)
  }

  /**
   * `getJobs`: exactly the active jobs matching the supplied filters, each
   * once, newest `createdAt` first; an inactive job is never listed.
   */
  method GetJobs(s: Database.Store, q: JobQuery) returns (r: seq<Id>)
    ensures forall id :: id in r <==> id in s.jobs && Matches(q, s.jobs[id])
    ensures forall id :: id in r ==> s.jobs[id].isActive
    ensures Distinct(r)
    ensures forall i, j :: 0 <= i < j < |r| ==>
      r[i] in s.jobs && r[j] in s.jobs && s.jobs[r[i]].createdAt >= s.jobs[r[j]].createdAt
  {
    var jobs := s.jobs;
    r := SelectSorted(jobs.Keys, id => id in jobs && Matches(q, jobs[id]),
                      id => if id in jobs then -jobs[id].createdAt else 0);
  }

  /** `getJob`: the job under `id`, or 404. */
  method GetJob(s: Database.Store, id: Id) returns (r: Reply<Job>)
    ensures r.Ok? <==> id in s.jobs
    ensures r.Ok? ==> r.code == 200 && r.data == s.jobs[id]
    ensures !r.Ok? ==> r == Refused(JobNotFound)
  {
    if id !in s.jobs {
      return Refused(JobNotFound);
    }
    r := Ok(200, s.jobs[id]);
  }

  /** The body of `PUT /jobs/:id`: every supplied key is written as it is. */
  datatype JobPatch = JobPatch(
    title: Option<string>,
    department: Option<string>,
    location: Option<string>,
    jobType: Option<string>,
    salary: Option<string>,
    description: Option<string>,
    skills: Option<seq<string>>,
    requirements: Option<seq<string>>,
    responsibilities: Option<seq<string>>,
    benefits: Option<seq<string>>,
    status: Option<string>,
    isActive: Option<bool>)

  /** `runValidators` on the update: required strings stay non-empty, enums hold. */
  predicate PatchPassesValidators(p: JobPatch) {
    (p.title.Some? ==> p.title.value != "")
    && (p.department.Some? ==> p.department.value != "")
    && (p.location.Some? ==> p.location.value != "")
    && (p.description.Some? ==> p.description.value != "")
    && (p.jobType.Some? ==> ParseType(p.jobType.value).Some?)
    && (p.status.Some? ==> ParseStatus(p.status.value).Some?)
  }

  /**
   * A job after `updateJob`: each supplied field is written (status and
   * isActive independently of each other), the others are kept, and the
   * timestamp is `now`.
   */
  function PatchedJob(j: Job, p: JobPatch, now: int): (r: Job)
    requires PatchPassesValidators(p)
    ensures Sets(p.title, j.title, r.title) && Sets(p.department, j.department, r.department)
    ensures Sets(p.location, j.location, r.location) && Sets(p.description, j.description, r.description)
    ensures p.jobType.Some? ==> TypeName(r.jobType) == p.jobType.value
    ensures p.jobType.None? ==> r.jobType == j.jobType
    ensures p.status.Some? ==> StatusName(r.status) == p.status.value
    ensures p.status.None? ==> r.status == j.status
    ensures Sets(p.isActive, j.isActive, r.isActive)
    ensures p.salary.Some? ==> r.salary == p.salary
    ensures p.salary.None? ==> r.salary == j.salary
    ensures Sets(p.skills, j.skills, r.skills) && Sets(p.requirements, j.requirements, r.requirements)
    ensures Sets(p.responsibilities, j.responsibilities, r.responsibilities)
    ensures Sets(p.benefits, j.benefits, r.benefits)
    ensures r.postedBy == j.postedBy && r.applicationsCount == j.applicationsCount
    ensures r.createdAt == j.createdAt && r.updatedAt == now
    ensures WellFormed(j) ==> WellFormed(r)
  {
    var jobType := if p.jobType.Some? then ParseType(p.jobType.value).value else j.jobType;
    var status := if p.status.Some? then ParseStatus(p.status.value).value else j.status;
    Job(Override(p.title, j.title), Override(p.department, j.department),
        Override(p.location, j.location), jobType,
        if p.salary.Some? then p.salary else j.salary,
        Override(p.description, j.description), Override(p.skills, j.skills),
        Override(p.requirements, j.requirements),
        Override(p.responsibilities, j.responsibilities), Override(p.benefits, j.benefits),
        status, Override(p.isActive, j.isActive), j.postedBy, j.applicationsCount,
        j.createdAt, now)
  }

  /**
   * Unlike the toggle, an update may leave "closed" on an active job: the
   * status/isActive agreement is not an invariant of the collection.
   */
  lemma PatchCanBreakAgreement(j: Job, now: int)
    requires j.isActive && StatusAgrees(j)
    ensures !StatusAgrees(PatchedJob(j, JobPatch(None, None, None, None, None, None, None, None, None, None, Some("closed"), None), now))
  {
  }

  /**
   * `updateJob`: the lookup comes first (404), then the update with its
   * validators.
   */
  method UpdateJob(s: Database.Store, id: Id, p: JobPatch, now: int) returns (r: Reply<Job>)
    requires s.Valid()
    modifies s`jobs
    ensures s.Valid()
    ensures r.Refused? <==> id !in old(s.jobs)
    ensures r.Refused? ==> r.why == JobNotFound
    ensures r.Thrown? <==> id in old(s.jobs) && !PatchPassesValidators(p)
    ensures r.Thrown? ==> r.error == ValidationError
    ensures !r.Ok? ==> s.jobs == old(s.jobs)
    ensures r.Ok? ==> r.code == 200 && r.data == PatchedJob(old(s.jobs)[id], p, now)
    ensures r.Ok? ==> s.jobs == old(s.jobs)[id := r.data]
  {
    if id !in s.jobs {
      return Refused(JobNotFound);
    }
    if !PatchPassesValidators(p) {
      return Thrown(ValidationError);
    }
    var j := PatchedJob(s.jobs[id], p, now);
    s.jobs := s.jobs[id := j];
    r := Ok(200, j);
  }

  /** `deleteJob`: removes exactly that job, or 404 with nothing removed. */
  method DeleteJob(s: Database.Store, id: Id) returns (r: Reply<()>)
    requires s.Valid()
    modifies s`jobs
    ensures s.Valid()
    ensures r.Ok? <==> id in old(s.jobs)
    ensures r.Ok? ==> r.code == 200 && s.jobs == old(s.jobs) - {id}
    ensures !r.Ok? ==> r == Refused(JobNotFound) && s.jobs == old(s.jobs)
  {
    if id !in s.jobs {
      return Refused(JobNotFound);
    }
    s.jobs := s.jobs - {id};
    r := Ok(200, ());
  }

  /**
   * A job after the toggle: isActive negated, status "active" exactly when
   * the new isActive is set, the timestamp `now`, nothing else changed.
   */
  function Toggled(j: Job, now: int): (r: Job)
    ensures r.isActive == !j.isActive
    ensures StatusAgrees(r)
    ensures r == j.(isActive := r.isActive, status := r.status, updatedAt := now)
  {
    j.(isActive := !j.isActive, status := if !j.isActive then Active else Closed, updatedAt := now)
  }

  /** Toggling twice restores isActive, and restores the whole job when status agreed. */
  lemma ToggleTwice(j: Job, t1: int, t2: int)
    ensures Toggled(Toggled(j, t1), t2).isActive == j.isActive
    ensures StatusAgrees(j) ==> Toggled(Toggled(j, t1), t2) == j.(updatedAt := t2)
  {
  }

  /** `toggleJobStatus`: flips isActive, sets status from it, saves; 404 for an unknown id. */
  method ToggleJobStatus(s: Database.Store, id: Id, now: int) returns (r: Reply<Job>)
    requires s.Valid()
    modifies s`jobs
    ensures s.Valid()
    ensures r.Ok? <==> id in old(s.jobs)
    ensures !r.Ok? ==> r == Refused(JobNotFound) && s.jobs == old(s.jobs)
    ensures r.Ok? ==> r.code == 200 && r.data == Toggled(old(s.jobs)[id], now)
    ensures r.Ok? ==> s.jobs == old(s.jobs)[id := r.data]
  {
    if id !in s.jobs {
      return Refused(JobNotFound);
    }
    var job := s.jobs[id];
    job := job.(isActive := !job.isActive);
    job := job.(status := if job.isActive then Active else Closed);
    job := job.(updatedAt := now);
    s.jobs := s.jobs[id := job];
    r := Ok(200, job);
  }
}

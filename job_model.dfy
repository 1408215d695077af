/** The Job schema: a posting with its type and status enums and defaults. */
module JobModel {
  import opened Common

  datatype JobType = FullTime | PartTime | Contract | Internship

  datatype JobStatus = Active | Closed

  function TypeName(t: JobType): string {
    match t
    case FullTime => "full-time"
    case PartTime => "part-time"
    case Contract => "contract"
    case Internship => "internship"
  }

  /** The enum check on `type`: the job type whose name is `s`, if there is one. */
  function ParseType(s: string): (r: Option<JobType>)
    ensures forall t :: r == Some(t) <==> TypeName(t) == s
  {
    if s == "full-time" then Some(FullTime)
    else if s == "part-time" then Some(PartTime)
    else if s == "contract" then Some(Contract)
    else if s == "internship" then Some(Internship)
    else None
  }

  function StatusName(st: JobStatus): string {
    match st
    case Active => "active"
    case Closed => "closed"
  }

  /** The enum check on `status`: the job status whose name is `s`, if there is one. */
  function ParseStatus(s: string): (r: Option<JobStatus>)
    ensures forall st :: r == Some(st) <==> StatusName(st) == s
  {
    if s == "active" then Some(Active)
    else if s == "closed" then Some(Closed)
    else None
  }

  datatype Job = Job(
    title: string,
    department: string,
    location: string,
    jobType: JobType,
    salary: Option<string>,
    description: string,
    skills: seq<string>,
    requirements: seq<string>,
    responsibilities: seq<string>,
    benefits: seq<string>,
    status: JobStatus,
    isActive: bool,
    postedBy: Option<Id>,
    applicationsCount: int,
    createdAt: int,
    updatedAt: int)

  /** The required string fields are non-empty. */
  predicate WellFormed(j: Job) {
    j.title != "" && j.department != "" && j.location != "" && j.description != ""
  }

  predicate JobsValid(jobs: map<Id, Job>) {
    forall id :: id in jobs ==> WellFormed(jobs[id])
  }

  /** `status` says "active" exactly when `isActive` is set. */
  predicate StatusAgrees(j: Job) {
    j.status == Active <==> j.isActive
  }

  /**
   * `Job.create`: the given fields, the schema's defaults for `status`
   * (active), `isActive` (true) and `applicationsCount` (0), timestamps at `now`.
   */
  function Create(title: string, department: string, location: string, jobType: JobType,
                  salary: Option<string>, description: string, skills: seq<string>,
                  requirements: seq<string>, responsibilities: seq<string>, benefits: seq<string>,
                  postedBy: Option<Id>, now: int): (j: Job)
    requires title != "" && department != "" && location != "" && description != ""
    ensures WellFormed(j) && StatusAgrees(j)
    ensures j.status == Active && j.isActive && j.applicationsCount == 0
    ensures j.createdAt == now && j.updatedAt == now
  {
    Job(title, department, location, jobType, salary, description, skills, requirements,
        responsibilities, benefits, Active, true, postedBy, 0, now, now)
  }
}

/**
 * The database the controllers work on: one map from id to document per
 * collection, the id generator, and the two hash functions the handlers see
 * as opaque (the password hash of the User pre-save hook and the SHA-256 of
 * reset tokens).
 */
module Database {
  import opened Common
  import ApplicationModel
  import JobModel
  import UserRecord
  import OfferModel
  import InterviewModel
  import EmployeeModel

  /** Every id of `ids` was issued before `next`. */
  predicate IssuedBefore(ids: set<Id>, next: nat) {
    forall id :: id in ids ==> id < next
  }

  class Store {
    var applications: map<Id, ApplicationModel.Application>
    var jobs: map<Id, JobModel.Job>
    var users: map<Id, UserRecord.User>
    var offers: map<Id, OfferModel.Offer>
    var interviews: map<Id, InterviewModel.Interview>
    var employees: map<Id, EmployeeModel.Employee>
    /** The next document id; every stored id is smaller. */
    var nextId: nat
    /** bcrypt as the User pre-save hook applies it; `compare(p, h)` is `hashPassword(p) == h`. */
    const hashPassword: string -> string
    /** `crypto.createHash('sha256').update(t).digest('hex')`. */
    const hashToken: string -> string

    /** The schema constraints and unique indexes of every collection hold, and ids are fresh. */
    ghost predicate Valid()
      reads this
    {
      && ApplicationModel.ApplicationsValid(applications)
      && JobModel.JobsValid(jobs)
      && UserRecord.UsersValid(users)
      && OfferModel.OffersValid(offers)
      && InterviewModel.InterviewsValid(interviews)
      && EmployeeModel.EmployeesValid(employees)
      && IssuedBefore(applications.Keys, nextId)
      && IssuedBefore(jobs.Keys, nextId)
      && IssuedBefore(users.Keys, nextId)
      && IssuedBefore(offers.Keys, nextId)
      && IssuedBefore(interviews.Keys, nextId)
      && IssuedBefore(employees.Keys, nextId)
    }

    constructor (hashPassword: string -> string, hashToken: string -> string)
      ensures Valid()
      ensures applications == map[] && jobs == map[] && users == map[]
      ensures offers == map[] && interviews == map[] && employees == map[]
      ensures this.hashPassword == hashPassword && this.hashToken == hashToken
    {
      applications, jobs, users := map[], map[], map[];
      offers, interviews, employees := map[], map[], map[];
      nextId := 0;
      this.hashPassword := hashPassword;
      this.hashToken := hashToken;
    }

    /** Issues a document id no collection holds yet. */
    method NewId() returns (id: Id)
      modifies this`nextId
      ensures id == old(nextId) && nextId == id + 1
      ensures old(Valid()) ==> Valid()
      ensures old(Valid()) ==> id !in applications && id !in jobs && id !in users
      ensures old(Valid()) ==> id !in offers && id !in interviews && id !in employees
    {
      id := nextId;
      nextId := nextId + 1;
    }
  }
}

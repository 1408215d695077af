/** The Offer schema: required fields, the status enum and defaults. */
module OfferModel {
  import opened Common

  datatype OfferStatus = Pending | Accepted | Rejected | Expired

  function StatusName(st: OfferStatus): string {
    match st
    case Pending => "pending"
    case Accepted => "accepted"
    case Rejected => "rejected"
    case Expired => "expired"
  }

  /** The enum check on `status`. */
  function ParseStatus(s: string): (r: Option<OfferStatus>)
    ensures forall st :: r == Some(st) <==> StatusName(st) == s
  {
    if s == "pending" then Some(Pending)
    else if s == "accepted" then Some(Accepted)
    else if s == "rejected" then Some(Rejected)
    else if s == "expired" then Some(Expired)
    else None
  }

  datatype Offer = Offer(
    applicationId: Id,
    jobId: Id,
    candidateId: Id,
    candidateName: string,
    candidateEmail: string,
    position: string,
    department: string,
    salary: int,
    currency: string,
    startDate: int,
    offerValidTill: int,
    jobDescription: Option<string>,
    benefits: seq<string>,
    status: OfferStatus,
    respondedAt: Option<int>,
    rejectionReason: Option<string>,
    documents: seq<string>,
    createdAt: int,
    updatedAt: int)

  /** The required string fields are non-empty. */
  predicate WellFormed(o: Offer) {
    o.candidateName != "" && o.candidateEmail != "" && o.position != "" && o.department != ""
  }

  predicate OffersValid(offers: map<Id, Offer>) {
    forall id :: id in offers ==> WellFormed(offers[id])
  }

  /**
   * `Offer.create`: the given fields, the schema's defaults (status pending;
   * respondedAt and rejectionReason null), timestamps at `now`.
   */
  function Create(applicationId: Id, jobId: Id, candidateId: Id, candidateName: string,
                  candidateEmail: string, position: string, department: string, salary: int,
                  currency: string, startDate: int, offerValidTill: int,
                  jobDescription: Option<string>, benefits: seq<string>, documents: seq<string>,
                  now: int): (o: Offer)
    requires candidateName != "" && candidateEmail != "" && position != "" && department != ""
    ensures WellFormed(o)
    ensures o.status == Pending && o.respondedAt.None? && o.rejectionReason.None?
    ensures o.createdAt == now && o.updatedAt == now
  {
    Offer(applicationId, jobId, candidateId, candidateName, candidateEmail, position, department,
          salary, currency, startDate, offerValidTill, jobDescription, benefits, Pending, None, None,
          documents, now, now)
  }
}

/**
 * The offer handlers: creating an offer (which moves the application to
 * status "offer"), recording the candidate's response, deleting and listing.
 */
module OfferController {
  import opened Common
  import opened Query
  import opened OfferModel
  import ApplicationModel
  import Database

  const MissingFields := Rejection(400, "Please provide all required fields")
  const OfferNotFound := Rejection(404, "Offer not found")

  /** The body of `POST /offers`. */
  datatype OfferBody = OfferBody(
    applicationId: Option<Id>,
    jobId: Option<Id>,
    candidateId: Option<Id>,
    candidateName: Option<string>,
    candidateEmail: Option<string>,
    position: Option<string>,
    department: Option<string>,
    salary: Option<int>,
    currency: Option<string>,
    startDate: Option<int>,
    offerValidTill: Option<int>,
    jobDescription: Option<string>,
    benefits: Option<seq<string>>,
    documents: Option<seq<string>>)

  /** The handler's own check: ids, a non-zero salary and a start date. */
  predicate HasRequiredFields(b: OfferBody) {
    b.applicationId.Some? && b.jobId.Some? && b.candidateId.Some? && NonZero(b.salary) && b.startDate.Some?
  }

  /** The schema's `required` validators that the handler does not check itself. */
  predicate PassesValidators(b: OfferBody) {
    Present(b.candidateName) && Present(b.candidateEmail) && Present(b.position) && Present(b.department)
    && b.offerValidTill.Some?
  }

  /**
   * The offer `createOffer` stores: the given fields, currency USD and empty
   * benefit and document lists unless supplied, status pending, no response.
   */
  function Drafted(b: OfferBody, now: int): (o: Offer)
    requires HasRequiredFields(b) && PassesValidators(b)
    ensures WellFormed(o)
    ensures o.applicationId == b.applicationId.value && o.jobId == b.jobId.value
    ensures o.candidateId == b.candidateId.value && o.salary == b.salary.value
    ensures o.startDate == b.startDate.value && o.offerValidTill == b.offerValidTill.value
    ensures o.candidateName == b.candidateName.value && o.candidateEmail == b.candidateEmail.value
    ensures o.position == b.position.value && o.department == b.department.value
    ensures Present(b.currency) ==> o.currency == b.currency.value
    ensures !Present(b.currency) ==> o.currency == "USD"
    ensures o.benefits == (if b.benefits.Some? then b.benefits.value else [])
    ensures o.documents == (if b.documents.Some? then b.documents.value else [])
    ensures o.jobDescription == b.jobDescription
    ensures o.status == Pending && o.respondedAt.None? && o.rejectionReason.None?
    ensures o.createdAt == now
  {
    Create(b.applicationId.value, b.jobId.value, b.candidateId.value, b.candidateName.value,
           b.candidateEmail.value, b.position.value, b.department.value, b.salary.value,
           OrElse(b.currency, "USD"), b.startDate.value, b.offerValidTill.value, b.jobDescription,
           Override(b.benefits, []), Override(b.documents, []), now)
  }

  /** The application after `findByIdAndUpdate(applicationId, { status: 'offer' })`. */
  function MarkedOffered(a: ApplicationModel.Application, now: int): (r: ApplicationModel.Application)
    ensures r.status == ApplicationModel.Offer && r.updatedAt == now
    ensures r.(status := a.status, updatedAt := a.updatedAt) == a
  {
    a.(status := ApplicationModel.Offer, updatedAt := now)
  }

  /**
   * `createOffer`: the handler's 400, then the schema's validators; on
   * success one offer is added under a fresh id and the referenced
   * application, when it exists, moves to status "offer" with nothing else
   * of it changed. A missing application leaves the collection as it was and
   * the offer is still created.
   */
  method CreateOffer(s: Database.Store, b: OfferBody, now: int) returns (r: Reply<Id>)
    requires s.Valid()
    modifies s`offers, s`applications, s`nextId
    ensures s.Valid()
    ensures r.Refused? <==> !HasRequiredFields(b)
    ensures r.Refused? ==> r.why == MissingFields
    ensures r.Thrown? <==> HasRequiredFields(b) && !PassesValidators(b)
    ensures r.Thrown? ==> r.error == ValidationError
    ensures !r.Ok? ==> s.offers == old(s.offers) && s.applications == old(s.applications)
    ensures r.Ok? ==> r.code == 201 && r.data !in old(s.offers)
    ensures r.Ok? ==> s.offers == old(s.offers)[r.data := Drafted(b, now)]
    ensures r.Ok? && b.applicationId.value in old(s.applications) ==>
      s.applications == old(s.applications)[b.applicationId.value :=
                                            MarkedOffered(old(s.applications)[b.applicationId.value], now)]
    ensures r.Ok? && b.applicationId.value !in old(s.applications) ==> s.applications == old(s.applications)
  {
    if !HasRequiredFields(b) {
      return Refused(MissingFields);
    }
    if !PassesValidators(b) {
      return Thrown(ValidationError);
    }
    var o := Drafted(b, now);
    var id := s.NewId();
    s.offers := s.offers[id := o];
    var appId := b.applicationId.value;
    if appId in s.applications {
      var a := MarkedOffered(s.applications[appId], now);
      ApplicationModel.RewriteKeepsUnique(s.applications, appId, a);
      s.applications := s.applications[appId := a];
    }
    r := Ok(201, id);
  }

  /** The body of `PUT /offers/:id`; a `respondedAt` in it is read but never used. */
  datatype OfferResponse = OfferResponse(
    status: Option<string>,
    rejectionReason: Option<string>,
    respondedAt: Option<int>)

  /** `runValidators` on the update document: the status, when written, is in the enum. */
  predicate ResponsePassesValidators(p: OfferResponse) {
    Present(p.status) ==> ParseStatus(p.status.value).Some?
  }

  /**
   * An offer after `updateOffer`: status and rejection reason change only
   * when supplied and non-empty; respondedAt becomes `now` exactly when a
   * status is supplied (the body's own respondedAt is ignored); nothing else
   * changes but the timestamp.
   */
  function Responded(o: Offer, p: OfferResponse, now: int): (r: Offer)
    requires ResponsePassesValidators(p)
    ensures Present(p.status) ==> StatusName(r.status) == p.status.value && r.respondedAt == Some(now)
    ensures !Present(p.status) ==> r.status == o.status && r.respondedAt == o.respondedAt
    ensures Present(p.rejectionReason) ==> r.rejectionReason == p.rejectionReason
    ensures !Present(p.rejectionReason) ==> r.rejectionReason == o.rejectionReason
    ensures r.updatedAt == now
    ensures r.(status := o.status, respondedAt := o.respondedAt, rejectionReason := o.rejectionReason,
               updatedAt := o.updatedAt) == o
  {
    o.(status := if Present(p.status) then ParseStatus(p.status.value).value else o.status,
       rejectionReason := if Present(p.rejectionReason) then p.rejectionReason else o.rejectionReason,
       respondedAt := if Present(p.status) then Some(now) else o.respondedAt,
       updatedAt := now)
  }

  /** Taken together: the response's own respondedAt never reaches the document. */
  lemma RespondedAtIgnoresBody(o: Offer, p: OfferResponse, t: Option<int>, now: int)
    requires ResponsePassesValidators(p)
    ensures Responded(o, p, now) == Responded(o, p.(respondedAt := t), now)
  {
  }

  /** `updateOffer`: validators on the update document, then 404, then the update. */
  method UpdateOffer(s: Database.Store, id: Id, p: OfferResponse, now: int) returns (r: Reply<Offer>)
    requires s.Valid()
    modifies s`offers
    ensures s.Valid()
    ensures r.Thrown? <==> !ResponsePassesValidators(p)
    ensures r.Thrown? ==> r.error == ValidationError
    ensures r.Refused? <==> ResponsePassesValidators(p) && id !in old(s.offers)
    ensures r.Refused? ==> r.why == OfferNotFound
    ensures !r.Ok? ==> s.offers == old(s.offers)
    ensures r.Ok? ==> r.code == 200 && id in old(s.offers) && r.data == Responded(old(s.offers)[id], p, now)
    ensures r.Ok? ==> s.offers == old(s.offers)[id := r.data]
  {
    var setStatus: Option<string> := None;
    var setReason: Option<string> := None;
    var setRespondedAt: Option<int> := None;
    if Present(p.status) { setStatus := p.status; }
    if Present(p.rejectionReason) { setReason := p.rejectionReason; }
    if Present(p.status) { setRespondedAt := Some(now); }

    if setStatus.Some? && ParseStatus(setStatus.value).None? {
      return Thrown(ValidationError);
    }
    if id !in s.offers {
      return Refused(OfferNotFound);
    }
    var o := s.offers[id];
    o := o.(updatedAt := now);
    if setStatus.Some? { o := o.(status := ParseStatus(setStatus.value).value); }
    if setReason.Some? { o := o.(rejectionReason := setReason); }
    if setRespondedAt.Some? { o := o.(respondedAt := setRespondedAt); }
    s.offers := s.offers[id := o];
    r := Ok(200, o);
  }

  /** `deleteOffer`: removes exactly that offer, or 404 with nothing removed. */
  method DeleteOffer(s: Database.Store, id: Id) returns (r: Reply<()>)
    requires s.Valid()
    modifies s`offers
    ensures s.Valid()
    ensures r.Ok? <==> id in old(s.offers)
    ensures r.Ok? ==> r.code == 200 && s.offers == old(s.offers) - {id}
    ensures !r.Ok? ==> r == Refused(OfferNotFound) && s.offers == old(s.offers)
  {
    if id !in s.offers {
      return Refused(OfferNotFound);
    }
    s.offers := s.offers - {id};
    r := Ok(200, ());
  }

  /** `getOffer`: the offer under `id`, or 404. */
  method GetOffer(s: Database.Store, id: Id) returns (r: Reply<Offer>)
    ensures r.Ok? <==> id in s.offers
    ensures r.Ok? ==> r.code == 200 && r.data == s.offers[id]
    ensures !r.Ok? ==> r == Refused(OfferNotFound)
  {
    if id !in s.offers {
      return Refused(OfferNotFound);
    }
    r := Ok(200, s.offers[id]);
  }

  /** The query `getOffers` builds from its truthy parameters. */
  datatype OfferQuery = OfferQuery(status: Option<string>, candidateId: Option<Id>)

  predicate Matches(q: OfferQuery, o: Offer) {
    (Present(q.status) ==> StatusName(o.status) == q.status.value)
    && (q.candidateId.Some? ==> o.candidateId == q.candidateId.value)
  }

  /** `getOffers`: exactly the matching offers, each once, newest `createdAt` first. */
  method GetOffers(s: Database.Store, q: OfferQuery) returns (r: seq<Id>)
    ensures forall id :: id in r <==> id in s.offers && Matches(q, s.offers[id])
    ensures Distinct(r)
    ensures forall i, j :: 0 <= i < j < |r| ==>
      r[i] in s.offers && r[j] in s.offers && s.offers[r[i]].createdAt >= s.offers[r[j]].createdAt
  {
    var offers := s.offers;
    r := SelectSorted(offers.Keys, id => id in offers && Matches(q, offers[id]),
                      id => if id in offers then -offers[id].createdAt else 0);
  }

  /** `getMyOffers`: exactly the offers made to the caller, newest first. */
  method GetMyOffers(s: Database.Store, caller: Id) returns (r: seq<Id>)
    ensures forall id :: id in r <==> id in s.offers && s.offers[id].candidateId == caller
    ensures Distinct(r)
    ensures forall i, j :: 0 <= i < j < |r| ==>
      r[i] in s.offers && r[j] in s.offers && s.offers[r[i]].createdAt >= s.offers[r[j]].createdAt
  {
    r := GetOffers(s, OfferQuery(None, Some(caller)));
  }
}

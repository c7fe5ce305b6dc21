/**
 * The documents kept in the `jobs` and `bids` collections, the request
 * bodies that rewrite them, and the filters the routes select bids with.
 */
module Records {

  datatype Option<T> = None | Some(value: T)

  /** Store-assigned identifiers, treated as opaque strings. */
  type JobId = string
  type BidId = string

  /** The posting user, as the add-job form stores it under `buyer`. */
  datatype Buyer = Buyer(email: string, name: string, photo: string)

  /**
   * A job document. `email` is the top-level field that only PUT /job/:id
   * writes; a job created by the add-job form has none.
   */
  datatype Job = Job(
    jobTitle: string,
    buyer: Buyer,
    email: Option<string>,
    deadline: string,
    category: string,
    minPrice: int,
    maxPrice: int,
    description: string,
    bidCount: int)

  /**
   * A bid document: `id` is its `_id`, `email` the bidder, `buyer` the email
   * of the job's owner, `status` whatever the client last wrote there.
   */
  datatype Bid = Bid(
    id: BidId,
    jobId: JobId,
    email: string,
    buyer: string,
    price: int,
    comment: string,
    deadline: string,
    status: string)

  /** The body of PUT /job/:id; `jobId` names the job to rewrite. */
  datatype JobEdit = JobEdit(
    jobId: JobId,
    jobTitle: string,
    email: string,
    deadline: string,
    category: string,
    minPrice: int,
    maxPrice: int,
    description: string)

  /** The `$set` of PUT /job/:id: the seven listed fields and nothing else. */
  function EditJob(j: Job, e: JobEdit): (r: Job)
    ensures r.bidCount == j.bidCount && r.buyer == j.buyer
    ensures r.jobTitle == e.jobTitle && r.email == Some(e.email) && r.deadline == e.deadline
    ensures r.category == e.category && r.description == e.description
    ensures r.minPrice == e.minPrice && r.maxPrice == e.maxPrice
  {
    j.(jobTitle := e.jobTitle, email := Some(e.email), deadline := e.deadline,
       category := e.category, minPrice := e.minPrice, maxPrice := e.maxPrice,
       description := e.description)
  }

  /** The two `$set` updates the server applies to a bid. */
  datatype BidUpdate =
    | SetStatus(status: string)
    | SetTerms(price: int, comment: string, deadline: string)

  function ApplyUpdate(b: Bid, u: BidUpdate): (r: Bid)
    // neither update touches the bid's identity, its job, bidder or owner
    ensures r.id == b.id && r.jobId == b.jobId && r.email == b.email && r.buyer == b.buyer
    ensures u.SetStatus? ==> r.price == b.price && r.comment == b.comment && r.deadline == b.deadline
    ensures u.SetTerms? ==> r.status == b.status
    // and each writes exactly the values the request carried
    ensures u.SetStatus? ==> r.status == u.status
    ensures u.SetTerms? ==> r.price == u.price && r.comment == u.comment && r.deadline == u.deadline
    // the document is left as it was exactly when every written field already had its new value
    ensures r == b <==> match u
                        case SetStatus(s) => b.status == s
                        case SetTerms(p, c, d) => b.price == p && b.comment == c && b.deadline == d
  {
    match u
    case SetStatus(s) => b.(status := s)
    case SetTerms(p, c, d) => b.(price := p, comment := c, deadline := d)
  }

  /** The query documents the bid routes pass to `find`, `findOne` and `updateOne`. */
  datatype BidFilter =
    | IdIs(id: BidId)
    | EmailIs(email: string)
    | BuyerIs(buyer: string)
    | JobIs(jobId: JobId)
    | JobAndEmail(jobId: JobId, email: string)

  /** A query document matches a bid when every field it names holds the given value. */
  predicate Matches(b: Bid, f: BidFilter)
    // a match means the bid agrees with every field the query names ...
    ensures Matches(b, f) ==>
              && (f.IdIs? ==> b.id == f.id)
              && (f.EmailIs? || f.JobAndEmail? ==> b.email == f.email)
              && (f.BuyerIs? ==> b.buyer == f.buyer)
              && (f.JobIs? || f.JobAndEmail? ==> b.jobId == f.jobId)
    // ... and a query built from the bid's own fields always matches it
    ensures f in {IdIs(b.id), EmailIs(b.email), BuyerIs(b.buyer), JobIs(b.jobId), JobAndEmail(b.jobId, b.email)} ==>
              Matches(b, f)
  {
    match f
    case IdIs(id) => b.id == id
    case EmailIs(e) => b.email == e
    case BuyerIs(o) => b.buyer == o
    case JobIs(j) => b.jobId == j
    case JobAndEmail(j, e) => b.jobId == j && b.email == e
  }
}

/**
 * The Express server's jobs and bids collections as one in-memory store,
 * and each route handler as one atomic step over it: the GET routes are
 * functions that read the store, the POST, PUT, PATCH and DELETE routes are
 * methods that change it.
 */
module Server {
  import opened Records
  import opened BidQueries

  const DUPLICATE_BID_STATUS := 400
  const DUPLICATE_BID_MESSAGE := "You already have placed bid on this job!"

  /** What an insertion route sends back. */
  datatype Reply =
    | Inserted(insertedId: string)
    | InsertFailed                     // the driver refused the insert: its `_id` is taken
    | BadRequest(code: int, message: string)

  /** The driver's `updateOne` / `deleteOne` result counters. */
  datatype WriteResult = WriteResult(matchedCount: nat, modifiedCount: nat)

  /** JavaScript truthiness of a query-string value: present and not the empty string. */
  predicate Truthy(q: Option<string>)
    // only a missing value and the empty string are falsy
    ensures Truthy(q) <==> q != None && q != Some("")
  {
    q.Some? && q.value != ""
  }

  /** The `buyer` query value decides which field `my-bids` filters on; "false" is truthy. */
  lemma QueryTruthiness()
    ensures Truthy(Some("true")) && Truthy(Some("false")) && Truthy(Some("0"))
    ensures !Truthy(Some("")) && !Truthy(None)
  {
  }

  class Store {
    var jobs: map<JobId, Job>
    var bids: seq<Bid>

    /** What the database itself guarantees: `_id` is unique among bids. */
    ghost predicate Valid()
      reads this
    {
      UniqueIds(bids)
    }

    /** The bookkeeping the add-bid route is meant to keep. */
    ghost predicate Consistent()
      reads this
    {
      OneBidPerPair(bids) && CountsMatch(jobs, bids)
    }

    constructor ()
      ensures jobs == map[] && bids == []
      ensures Valid() && Consistent()
    {
      jobs := map[];
      bids := [];
    }

    /** GET /my-bids/:email: a truthy `buyer` query selects by owner, otherwise by bidder. */
    function MyBids(email: string, buyer: Option<string>): (r: seq<Bid>)
      reads this
      ensures Truthy(buyer) ==> forall b :: b in r <==> b in bids && b.buyer == email
      ensures !Truthy(buyer) ==> forall b :: b in r <==> b in bids && b.email == email
    {
      Where(bids, if Truthy(buyer) then BuyerIs(email) else EmailIs(email))
    }

    /** GET /bid/:email: the bids placed by `email`. */
    function BidsBy(email: string): (r: seq<Bid>)
      reads this
      ensures forall b :: b in r <==> b in bids && b.email == email
    {
      Where(bids, EmailIs(email))
    }

    /** GET /jobs/:email: the jobs whose `buyer.email` is `email`. */
    function JobsOf(email: string): (r: map<JobId, Job>)
      reads this
      ensures forall id :: id in r <==> id in jobs && jobs[id].buyer.email == email
      ensures forall id :: id in r ==> r[id] == jobs[id]
    {
      map id | id in jobs && jobs[id].buyer.email == email :: jobs[id]
    }

    /** GET /job/:id: the job with that id, or null. */
    function GetJob(id: JobId): (r: Option<Job>)
      reads this
      ensures r.Some? <==> id in jobs
      ensures r.Some? ==> r.value == jobs[id]
    {
      if id in jobs then Some(jobs[id]) else None
    }

    /**
     * POST /add-bid. A bid on a (jobId, email) pair that already has one is
     * refused with 400 and changes nothing. Otherwise the body is stored as
     * given and the job it names, when there is one, gets `bidCount + 1`.
     */
    method AddBid(bid: Bid) returns (r: Reply)
      requires Valid()
      modifies this
      ensures Valid()
      ensures old(Consistent()) ==> Consistent()
      ensures old(First(bids, JobAndEmail(bid.jobId, bid.email))).Some? ==>
                r == BadRequest(DUPLICATE_BID_STATUS, DUPLICATE_BID_MESSAGE) &&
                bids == old(bids) && jobs == old(jobs)
      ensures old(First(bids, JobAndEmail(bid.jobId, bid.email))).None? && old(First(bids, IdIs(bid.id))).Some? ==>
                r == InsertFailed && bids == old(bids) && jobs == old(jobs)
      ensures old(First(bids, JobAndEmail(bid.jobId, bid.email))).None? && old(First(bids, IdIs(bid.id))).None? ==>
                && r == Inserted(bid.id)
                && bids == old(bids) + [bid]
                && jobs == IncBidCount(old(jobs), bid.jobId)
    {
      if First(bids, JobAndEmail(bid.jobId, bid.email)).Some? {
        return BadRequest(DUPLICATE_BID_STATUS, DUPLICATE_BID_MESSAGE);
      }
      if First(bids, IdIs(bid.id)).Some? {
        return InsertFailed;
      }
      AppendKeepsUniqueness(bids, bid);
      if CountsMatch(jobs, bids) {
        InsertKeepsCounts(jobs, bids, bid);
      }
      bids := bids + [bid];
      jobs := IncBidCount(jobs, bid.jobId);
      r := Inserted(bid.id);
    }

    /** The shared body of the two bid update routes: `updateOne({_id: id}, update)`. */
    method UpdateBid(id: BidId, u: BidUpdate) returns (r: WriteResult)
      requires Valid()
      modifies this`bids
      ensures Valid()
      ensures old(Consistent()) ==> Consistent()
      ensures bids == UpdateFirst(old(bids), IdIs(id), u)
      ensures r.matchedCount == if exists i :: 0 <= i < |old(bids)| && old(bids)[i].id == id then 1 else 0
      ensures r.modifiedCount == if bids != old(bids) then 1 else 0
    {
      UpdateKeepsInvariants(jobs, bids, IdIs(id), u);
      var k := First(bids, IdIs(id));
      var before := bids;
      bids := UpdateFirst(bids, IdIs(id), u);
      r := WriteResult(if k.Some? then 1 else 0, if bids != before then 1 else 0);
    }

    /** PATCH /update-bid-request/:id: `status := newStatus`, with no transition check. */
    method UpdateBidStatus(id: BidId, newStatus: string) returns (r: WriteResult)
      requires Valid()
      modifies this`bids
      ensures Valid()
      ensures old(Consistent()) ==> Consistent()
      ensures bids == UpdateFirst(old(bids), IdIs(id), SetStatus(newStatus))
      ensures r.matchedCount == if exists i :: 0 <= i < |old(bids)| && old(bids)[i].id == id then 1 else 0
      ensures r.modifiedCount == if bids != old(bids) then 1 else 0
    {
      r := UpdateBid(id, SetStatus(newStatus));
    }

    /** PUT /bid/:id: overwrites `price`, `comment` and `deadline` and nothing else. */
    method UpdateBidTerms(id: BidId, price: int, comment: string, deadline: string) returns (r: WriteResult)
      requires Valid()
      modifies this`bids
      ensures Valid()
      ensures old(Consistent()) ==> Consistent()
      ensures bids == UpdateFirst(old(bids), IdIs(id), SetTerms(price, comment, deadline))
      ensures r.matchedCount == if exists i :: 0 <= i < |old(bids)| && old(bids)[i].id == id then 1 else 0
      ensures r.modifiedCount == if bids != old(bids) then 1 else 0
    {
      r := UpdateBid(id, SetTerms(price, comment, deadline));
    }

    /**
     * PUT /job/:id. The job rewritten is the one the body's `jobId` names;
     * the path parameter plays no part.
     */
    method UpdateJob(pathId: JobId, edit: JobEdit) returns (r: WriteResult)
      requires Valid()
      modifies this`jobs
      ensures Valid() && bids == old(bids)
      ensures old(Consistent()) ==> Consistent()
      ensures edit.jobId in old(jobs) ==> jobs == old(jobs)[edit.jobId := EditJob(old(jobs)[edit.jobId], edit)]
      ensures edit.jobId !in old(jobs) ==> jobs == old(jobs)
      ensures r.matchedCount == if edit.jobId in old(jobs) then 1 else 0
      ensures r.modifiedCount == if jobs != old(jobs) then 1 else 0
    {
      var before := jobs;
      if edit.jobId in jobs {
        jobs := jobs[edit.jobId := EditJob(jobs[edit.jobId], edit)];
      }
      r := WriteResult(if edit.jobId in before then 1 else 0, if jobs != before then 1 else 0);
    }

    /** DELETE /job/:id: removes that job; its bids stay. */
    method DeleteJob(id: JobId) returns (deletedCount: nat)
      requires Valid()
      modifies this`jobs
      ensures Valid() && bids == old(bids)
      ensures old(Consistent()) ==> Consistent()
      ensures jobs == old(jobs) - {id}
      ensures deletedCount == if id in old(jobs) then 1 else 0
    {
      deletedCount := if id in jobs then 1 else 0;
      jobs := jobs - {id};
    }

    /**
     * POST /add-job: stores the body as given under the id the driver
     * assigns; an id already in use makes the insert fail.
     */
    method AddJob(id: JobId, job: Job) returns (r: Reply)
      requires Valid()
      modifies this`jobs
      ensures Valid() && bids == old(bids)
      ensures id in old(jobs) ==> r == InsertFailed && jobs == old(jobs)
      ensures id !in old(jobs) ==> r == Inserted(id) && jobs == old(jobs)[id := job]
      // the add-job form sends bidCount 0; that keeps the counts right while no bid names the new id
      ensures old(Consistent()) && job.bidCount == 0 && First(bids, JobIs(id)).None? ==> Consistent()
    {
      if id in jobs {
        return InsertFailed;
      }
      FirstNoneIffWhereEmpty(bids, JobIs(id));
      jobs := jobs[id := job];
      r := Inserted(id);
    }
  }

  /** A job, one bid on it, and the same bidder trying again: the count stays at one. */
  method DuplicateBidScenario()
  {
    var store := new Store();
    var owner := Buyer("owner@x.com", "Owner", "");
    var job := Job("Logo Design", owner, None, "2026-12-01", "Graphics Design", 50, 200, "", 0);
    var added := store.AddJob("j1", job);
    assert added == Inserted("j1");
    var bid := Bid("b1", "j1", "a@x.com", "owner@x.com", 100, "", "2026-11-30", "Pending");
    var placed := store.AddBid(bid);
    assert First([], JobAndEmail("j1", "a@x.com")).None?;
    assert placed == Inserted("b1") && store.jobs["j1"].bidCount == 1;
    var again := store.AddBid(bid.(id := "b2", price := 90));
    assert store.bids[0] == bid && Matches(store.bids[0], JobAndEmail("j1", "a@x.com"));
    assert again == BadRequest(400, DUPLICATE_BID_MESSAGE);
    assert store.jobs["j1"].bidCount == 1 && store.bids == [bid];
  }
}

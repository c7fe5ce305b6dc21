/**
 * The job owner's "Bid Requests" page: it lists the bids on the owner's
 * jobs and lets the owner change a bid's status. Its guard is the only
 * check on the owner side of the bid-status state machine; the server's
 * status route checks nothing.
 */
module OwnerRequests {
  import opened Records
  import opened BidQueries
  import Server

  const COMPLETED := "Completed"
  /** The query value the page sends; any non-empty string selects by owner. */
  const BUYER_FLAG := "true"

  /** The owner may send a change unless it is a no-op or a move to "Completed". */
  predicate OwnerGuard(prevStatus: string, newStatus: string)
    ensures prevStatus == newStatus ==> !OwnerGuard(prevStatus, newStatus)
    ensures newStatus == COMPLETED ==> !OwnerGuard(prevStatus, newStatus)
    // nothing else is looked at: every other pair is sent, whatever the old status
    ensures prevStatus != newStatus && newStatus != COMPLETED ==> OwnerGuard(prevStatus, newStatus)
  {
    !(prevStatus == newStatus || newStatus == COMPLETED)
  }

  /** What one owner request does to the bids collection: the guard, then the server's status route. */
  function OwnerRequest(bids: seq<Bid>, id: BidId, prevStatus: string, newStatus: string): (r: seq<Bid>)
    ensures |r| == |bids|
    ensures !OwnerGuard(prevStatus, newStatus) ==> r == bids
  {
    if OwnerGuard(prevStatus, newStatus) then UpdateFirst(bids, IdIs(id), SetStatus(newStatus)) else bids
  }

  /**
   * After an owner request, the bid with that id has `newStatus` if the guard
   * passed and its old status otherwise; every other bid, and every other field, is as it was.
   */
  lemma OwnerRequestAt(bids: seq<Bid>, id: BidId, prevStatus: string, newStatus: string, k: nat)
    requires UniqueIds(bids) && k < |bids|
    ensures OwnerRequest(bids, id, prevStatus, newStatus)[k] ==
              if bids[k].id == id && OwnerGuard(prevStatus, newStatus)
              then bids[k].(status := newStatus) else bids[k]
  {
    UpdateByIdAt(bids, id, SetStatus(newStatus), k);
  }

  /** An owner request changes the store exactly when the guard passes and a bid with that id has another status. */
  lemma OwnerRequestChanges(bids: seq<Bid>, id: BidId, prevStatus: string, newStatus: string)
    requires UniqueIds(bids)
    ensures OwnerRequest(bids, id, prevStatus, newStatus) != bids <==>
              OwnerGuard(prevStatus, newStatus) &&
              exists k :: 0 <= k < |bids| && bids[k].id == id && bids[k].status != newStatus
  {
    UpdateByIdChanges(bids, id, SetStatus(newStatus));
  }

  /** Whatever it claims the old status was, an owner request never changes the store towards "Completed". */
  lemma OwnerNeverCompletes(bids: seq<Bid>, id: BidId, prevStatus: string)
    ensures OwnerRequest(bids, id, prevStatus, COMPLETED) == bids
  {
  }

  /**
   * The guard looks at nothing but the two statuses: a rejected or completed
   * bid can be moved again, for instance back to "Pending".
   */
  lemma OwnerMayReopen(bids: seq<Bid>, k: nat, settled: string)
    requires UniqueIds(bids) && k < |bids|
    requires settled == "Rejected" || settled == COMPLETED
    requires bids[k].status == settled
    ensures OwnerRequest(bids, bids[k].id, settled, "Pending")[k].status == "Pending"
  {
    OwnerRequestAt(bids, bids[k].id, settled, "Pending", k);
  }

  class BidRequestsPage {
    const store: Server.Store
    const userEmail: string
    var bidRequests: seq<Bid>

    /** Mounting the page fetches the owner's bid requests. */
    constructor (store: Server.Store, userEmail: string)
      ensures this.store == store && this.userEmail == userEmail
      ensures bidRequests == store.MyBids(userEmail, Some(BUYER_FLAG))
    {
      this.store := store;
      this.userEmail := userEmail;
      bidRequests := store.MyBids(userEmail, Some(BUYER_FLAG));
    }

    /** `fetchBidRequests`: GET /my-bids/:email?buyer=true, the bids on jobs this user owns. */
    method FetchBidRequests()
      modifies this`bidRequests
      ensures bidRequests == store.MyBids(userEmail, Some(BUYER_FLAG))
      ensures forall b :: b in bidRequests <==> b in store.bids && b.buyer == userEmail
    {
      bidRequests := store.MyBids(userEmail, Some(BUYER_FLAG));
    }

    /**
     * `handleChangeStatus`: a refused change sends nothing and keeps the list;
     * a permitted one sends PATCH /update-bid-request/:id with `newStatus`
     * and then fetches the list again.
     */
    method HandleChangeStatus(id: BidId, prevStatus: string, newStatus: string) returns (sent: bool)
      requires store.Valid()
      modifies this`bidRequests, store
      ensures store.Valid()
      ensures old(store.Consistent()) ==> store.Consistent()
      ensures sent == OwnerGuard(prevStatus, newStatus)
      ensures store.bids == OwnerRequest(old(store.bids), id, prevStatus, newStatus)
      ensures store.jobs == old(store.jobs)
      ensures sent ==> bidRequests == store.MyBids(userEmail, Some(BUYER_FLAG))
      ensures !sent ==> bidRequests == old(bidRequests)
    {
      if !OwnerGuard(prevStatus, newStatus) {
        return false;
      }
      var _ := store.UpdateBidStatus(id, newStatus);
      FetchBidRequests();
      sent := true;
    }
  }
}

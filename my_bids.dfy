/**
 * The bidder's "My Bids" page: it lists the bids the user placed and lets
 * the bidder change a bid's status. Its guard is the only check on the
 * bidder side of the bid-status state machine.
 */
module BidderRequests {
  import opened Records
  import opened BidQueries
  import Server

  /** The one status from which the page lets a bidder send a change (lower-case "p"). */
  const IN_PROGRESS := "In progress"

  /** The bidder may send a change only from "In progress"; the target status is not checked. */
  predicate BidderGuard(prevStatus: string)
    ensures BidderGuard(prevStatus) <==> prevStatus == IN_PROGRESS
    // the comparison is exact: another capitalisation is refused
    ensures prevStatus == "In Progress" || prevStatus == "in progress" ==> !BidderGuard(prevStatus)
  {
    prevStatus == IN_PROGRESS
  }

  /** What one bidder request does to the bids collection: the guard, then the server's status route. */
  function BidderRequest(bids: seq<Bid>, id: BidId, prevStatus: string, newStatus: string): (r: seq<Bid>)
    ensures |r| == |bids|
    ensures !BidderGuard(prevStatus) ==> r == bids
  {
    if BidderGuard(prevStatus) then UpdateFirst(bids, IdIs(id), SetStatus(newStatus)) else bids
  }

  /**
   * After a bidder request, the bid with that id has `newStatus`, whatever it
   * is, if the page's old status was "In progress", and keeps its status
   * otherwise; every other bid, and every other field, is as it was.
   */
  lemma BidderRequestAt(bids: seq<Bid>, id: BidId, prevStatus: string, newStatus: string, k: nat)
    requires UniqueIds(bids) && k < |bids|
    ensures BidderRequest(bids, id, prevStatus, newStatus)[k] ==
              if bids[k].id == id && BidderGuard(prevStatus)
              then bids[k].(status := newStatus) else bids[k]
  {
    UpdateByIdAt(bids, id, SetStatus(newStatus), k);
  }

  /**
   * When the page shows the stored status, a bid that is not "In progress"
   * is never changed by a bidder request, and neither is any other bid.
   */
  lemma BidderLeavesOthersAlone(bids: seq<Bid>, k: nat, newStatus: string)
    requires UniqueIds(bids) && k < |bids|
    requires bids[k].status != IN_PROGRESS
    ensures BidderRequest(bids, bids[k].id, bids[k].status, newStatus) == bids
  {
  }

  /** From "In progress" the bidder can set any status, not only "Completed". */
  lemma BidderTargetUnrestricted(bids: seq<Bid>, k: nat, newStatus: string)
    requires UniqueIds(bids) && k < |bids|
    requires bids[k].status == IN_PROGRESS
    ensures BidderRequest(bids, bids[k].id, IN_PROGRESS, newStatus)[k].status == newStatus
  {
    BidderRequestAt(bids, bids[k].id, IN_PROGRESS, newStatus, k);
  }

  class MyBidsPage {
    const store: Server.Store
    const userEmail: string
    var bids: seq<Bid>

    /** Mounting the page fetches the user's own bids. */
    constructor (store: Server.Store, userEmail: string)
      ensures this.store == store && this.userEmail == userEmail
      ensures bids == store.MyBids(userEmail, None)
    {
      this.store := store;
      this.userEmail := userEmail;
      bids := store.MyBids(userEmail, None);
    }

    /** `fetchBids`: GET /my-bids/:email with no `buyer` query, the bids this user placed. */
    method FetchBids()
      modifies this`bids
      ensures bids == store.MyBids(userEmail, None)
      ensures forall b :: b in bids <==> b in store.bids && b.email == userEmail
    {
      bids := store.MyBids(userEmail, None);
    }

    /**
     * `handleChangeStatus`: unless the old status is "In progress" nothing is
     * sent; otherwise PATCH /update-bid-request/:id carries `newStatus`
     * unchanged and the list is fetched again.
     */
    method HandleChangeStatus(id: BidId, prevStatus: string, newStatus: string) returns (sent: bool)
      requires store.Valid()
      modifies this`bids, store
      ensures store.Valid()
      ensures old(store.Consistent()) ==> store.Consistent()
      ensures sent == BidderGuard(prevStatus)
      ensures store.bids == BidderRequest(old(store.bids), id, prevStatus, newStatus)
      ensures store.jobs == old(store.jobs)
      ensures sent ==> bids == store.MyBids(userEmail, None)
      ensures !sent ==> bids == old(bids)
    {
      if !BidderGuard(prevStatus) {
        return false;
      }
      var _ := store.UpdateBidStatus(id, newStatus);
      FetchBids();
      sent := true;
    }
  }
}

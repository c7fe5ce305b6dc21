# SoloSphere bid and job bookkeeping, modelled in Dafny

SoloSphere is a freelance marketplace. Buyers post jobs and sellers place
bids on them. An Express server keeps two MongoDB collections, `jobs` and
`bids`, and two React pages let a user change a bid's status.

This project models the server's route handlers as atomic steps over an
in-memory store. `Server.Store` is a class holding `jobs`, a map from job id
to job document, and `bids`, a sequence of bid documents in insertion
order. The project also models the two pages' status-change guards
(`OwnerRequests.BidRequestsPage` and `BidderRequests.MyBidsPage`) and puts
each guard together with the server's status route. The route itself
checks nothing.

Files:

- `records.dfy` (module `Records`): the documents, the two request bodies
  that rewrite them, and the bid filters.
- `bid_queries.dfy` (module `BidQueries`): the driver calls the routes make
  on bids, modelled once: `find(...).toArray()` as `Where`, `findOne` as
  `First`, `updateOne` as `UpdateFirst`. The module also holds the
  invariants and the lemmas about them.
- `store.dfy` (module `Server`): one member per route.
- `bid_requests.dfy` and `my_bids.dfy`: the owner page and the bidder page.

The store keeps two invariants (`Store.Consistent`):

- at most one bid per `(jobId, email)` pair;
- every stored job's `bidCount` equals the number of bids naming it.

The add-bid route and every update route are proved to preserve both, for
ids written in the one spelling the server emits (see "## Left out").
`Store.Valid` holds what the database itself guarantees: a bid's `_id` is
unique.

The model follows the code. Where the intended lifecycle says more than the
code does, the model keeps the code's behaviour:

- add-bid assigns no status. The bid is stored exactly as the client sent it.
- The status route has no transition table.
- The owner page refuses only no-op changes and moves to "Completed". A
  "Rejected" or "Completed" bid can be moved again (`OwnerMayReopen`).
- The bidder page checks only that the old status is the string
  "In progress", with a lower-case p. The new status can be anything
  (`BidderTargetUnrestricted`).
- PUT /bid/:id edits `price`, `comment` and `deadline` whatever the bid's
  status, terminal or not.
- No route checks the caller's identity.

## Model

| member | source | states |
|---|---|---|
| Records.EditJob | server/index.js:163-179 | PUT /job/:id writes the seven listed fields from the body and keeps `bidCount` and `buyer` |
| Records.ApplyUpdate | server/index.js:104-132 | the status update writes the request's `status`, and the terms update writes the request's `price`, `comment` and `deadline`. Neither touches `_id`, `jobId`, `email` or `buyer`. The status update keeps the terms and the terms update keeps the status. The document is unchanged exactly when every written field already held its new value |
| Records.Matches | server/index.js:53-125 | the equality query documents of the bid routes (`{jobId, email}`, `{buyer}`, `{email}`, `{_id}`): a match means the bid agrees with every field the query names, and a query built from the bid's own fields always matches it |
| BidQueries.Where | server/index.js:90-91 | `find(query).toArray()` returns a bid if and only if it is stored and matches the query, and never more bids than are stored |
| BidQueries.WhereConcat | server/index.js:116 | the result of `find` is in stored order: filtering a concatenation is the concatenation of the filtered parts |
| BidQueries.First | server/index.js:53-54 | `findOne` gives the first matching position, or nothing exactly when no stored bid matches |
| BidQueries.FirstNoneIffWhereEmpty | server/index.js:54 | `findOne` finds nothing exactly when `find` with the same query lists nothing |
| BidQueries.UpdateFirst | server/index.js:108 | `updateOne` rewrites only the first matching bid, and changes nothing when none matches |
| BidQueries.CountAfterAppend | server/index.js:61-70 | inserting one bid adds one to the count of bids on its own job and nothing to any other job's count |
| BidQueries.IncBidCount | server/index.js:64-70 | `$inc bidCount` by 1 on the job the bid names. Every other job is unchanged, the key set is unchanged, and an unknown job id changes nothing |
| BidQueries.InsertKeepsCounts | server/index.js:61-70 | inserting a bid and then doing the `$inc` keeps every stored job's `bidCount` equal to the number of bids naming it |
| BidQueries.AppendKeepsUniqueness | server/index.js:53-61 | a bid inserted after the duplicate check passed keeps "one bid per (jobId, email)", and keeps unique `_id`s when its id is new |
| BidQueries.SameKeysKeepInvariants | server/index.js:53-70 | the invariants depend on bids' ids, jobIds and emails only, so rewriting other fields cannot break them |
| BidQueries.UpdateKeepsInvariants | server/index.js:96-136 | the status and terms updates preserve unique ids, one bid per pair, and the bidCount invariant |
| BidQueries.UpdateByIdAt | server/index.js:104-108 | with unique ids, updating by `_id` rewrites exactly the bid with that id and leaves every other position as it was |
| BidQueries.UpdateByIdChanges | server/index.js:125-134 | updating by `_id` changes the collection if and only if a bid has that id and the update alters it |
| Server.Truthy | server/index.js:83 | `if (isBuyer)` on a query-string value: only a missing value and the empty string are falsy |
| Server.QueryTruthiness | server/index.js:78-83 | the `buyer` query is read with JavaScript truthiness: "true", "false" and "0" select by owner, an empty or missing value by bidder |
| Server.Store.MyBids | server/index.js:76-93 | GET /my-bids/:email with a truthy `buyer` gives exactly the stored bids whose `buyer` is the email, otherwise exactly those whose `email` is the email |
| Server.Store.BidsBy | server/index.js:113-118 | GET /bid/:email gives exactly the stored bids whose `email` is the email |
| Server.Store.JobsOf | server/index.js:139-144 | GET /jobs/:email gives exactly the stored jobs whose `buyer.email` is the email, each as stored |
| Server.Store.GetJob | server/index.js:147-152 | GET /job/:id gives the job with that id if there is one, and null otherwise |
| Server.Store.AddBid | server/index.js:48-73 | a duplicate (jobId, email) gives 400 with the source's message and changes nothing. Otherwise the body is appended as given and only the named job gets `bidCount + 1`. Both invariants are preserved |
| Server.Store.UpdateBid | server/index.js:104-108 | `updateOne({_id})` applies the update to that bid only. It reports matched 1 or 0 by whether the id exists, and modified 1 exactly when the collection changed. Invariants are preserved |
| Server.Store.UpdateBidStatus | server/index.js:96-110 | PATCH /update-bid-request/:id sets `status` of that bid to `newStatus` with no transition check. Jobs are unchanged and a missing id changes nothing |
| Server.Store.UpdateBidTerms | server/index.js:121-136 | PUT /bid/:id overwrites only `price`, `comment` and `deadline` of that bid |
| Server.Store.UpdateJob | server/index.js:163-182 | PUT /job/:id rewrites the job named by the body's `jobId`, not by the path. Only the listed fields change. An unknown id changes nothing. Bids are not touched and the invariants are preserved |
| Server.Store.DeleteJob | server/index.js:155-160 | DELETE /job/:id removes only that job, reports 1 or 0 deleted, leaves the bids untouched, and keeps the invariants |
| Server.Store.AddJob | server/index.js:185-189 | POST /add-job stores the body as given under its new id; a taken id fails. A job arriving with `bidCount` 0 and no bid naming its id keeps the invariants |
| OwnerRequests.OwnerGuard | client/src/pages/BidRequests.jsx:27-29 | the owner's change is refused when the old and new status are equal, and whenever the new status is "Completed"; every other pair is sent, whatever the old status |
| OwnerRequests.OwnerRequest | client/src/pages/BidRequests.jsx:26-39 | one owner request leaves the collection's length unchanged, and changes nothing when the guard refuses |
| OwnerRequests.OwnerRequestAt | client/src/pages/BidRequests.jsx:27-37 | after an owner request the bid with that id has `newStatus` if the guard passed, and its old status otherwise. All other bids and fields are unchanged |
| OwnerRequests.OwnerRequestChanges | client/src/pages/BidRequests.jsx:27-37 | an owner request changes the store if and only if the guard passes and a bid with that id has a different status |
| OwnerRequests.OwnerNeverCompletes | client/src/pages/BidRequests.jsx:27-29 | a request to "Completed" never changes the store, whatever the old status is |
| OwnerRequests.OwnerMayReopen | client/src/pages/BidRequests.jsx:27-37 | the guard depends only on the two statuses: a "Rejected" or "Completed" bid can be moved back to "Pending" |
| OwnerRequests.BidRequestsPage.constructor | client/src/pages/BidRequests.jsx:10-13 | mounting the page loads the bids on this user's jobs |
| OwnerRequests.BidRequestsPage.FetchBidRequests | client/src/pages/BidRequests.jsx:15-24 | the list is exactly the stored bids whose `buyer` is the user, from GET /my-bids with `buyer=true` |
| OwnerRequests.BidRequestsPage.HandleChangeStatus | client/src/pages/BidRequests.jsx:26-43 | a request is sent if and only if the guard passes. The store then changes exactly as the status route does, and the list is fetched again with `buyer=true`. Otherwise nothing changes |
| BidderRequests.BidderGuard | client/src/pages/MyBids.jsx:32-34 | the bidder's change is sent exactly when the old status is the string "In progress"; "In Progress" and "in progress" are refused |
| BidderRequests.BidderRequest | client/src/pages/MyBids.jsx:29-43 | one bidder request leaves the collection's length unchanged, and changes nothing unless the old status is "In progress" |
| BidderRequests.BidderRequestAt | client/src/pages/MyBids.jsx:32-40 | after a bidder request the bid with that id has `newStatus` if the old status was "In progress", and keeps its status otherwise. All other bids and fields are unchanged |
| BidderRequests.BidderLeavesOthersAlone | client/src/pages/MyBids.jsx:32-34 | when the page passes a bid's stored status, a bid not "In progress" is never changed by a bidder request |
| BidderRequests.BidderTargetUnrestricted | client/src/pages/MyBids.jsx:36-40 | from "In progress" the requested status is sent unchanged and becomes the bid's status, whatever it is |
| BidderRequests.MyBidsPage.constructor | client/src/pages/MyBids.jsx:13-16 | mounting the page loads this user's own bids |
| BidderRequests.MyBidsPage.FetchBids | client/src/pages/MyBids.jsx:18-25 | the list is exactly the stored bids whose `email` is the user, from GET /my-bids without `buyer` |
| BidderRequests.MyBidsPage.HandleChangeStatus | client/src/pages/MyBids.jsx:29-47 | a request is sent if and only if the old status is "In progress". The store then changes exactly as the status route does, and the user's own bids are fetched again. Otherwise nothing changes |

## Left out

- GET /jobs and GET /bids (server/index.js:36-45) return a whole collection. The model reads `Store.jobs` and `Store.bids` directly and has no separate member for them.
- Server.Store.JobsOf: jobs are a map, so the model does not capture the order in which the database lists them.
- Identifiers are opaque strings compared by string equality. `ObjectId` parsing is not modelled: neither its throw on a malformed id, nor its folding of the upper- and lower-case spellings of one 24-digit hex id into the same id. The server's `$inc` and the `:id` routes go through `ObjectId`, but the duplicate check and `find({jobId})` compare raw strings. So a bid whose `jobId` spells an existing job's id in the other case is counted by the source's `$inc`, escapes the duplicate check, and breaks both invariants. Both invariants, and every claim that a route preserves them, are proved only for ids written in the one spelling the server emits.
- BidQueries.WhereConcat: the model fixes the order of `find` over `bids` as insertion order. MongoDB does not guarantee natural order.
- The driver assigns each inserted document a fresh `_id`. The model takes that id as an input (`Bid.id`, the `id` of `AddJob`). A clash stands for the driver's duplicate-key failure, after which add-bid does no `$inc`.
- Request bodies are assumed to carry every field a route reads. A missing field, which `$set` would write as null, is not modelled.
- A bid document carries only the fields the routes read or write. Other fields the client may send are not modelled.
- Each route runs as one atomic step. The race between add-bid's `findOne` and `insertOne` under concurrent requests is not modelled, and neither is a crash between the insert and the `$inc`.
- Storage errors, HTTP plumbing, the connection and ping in `run()` (server/index.js:1-34, 191-205) are left out.
- In the pages, request failures (the `catch` branches), logging, toasts, rendering and the un-awaited re-fetch are left out. A permitted change is modelled as a PATCH that succeeds, followed by the re-fetch.
- The pages' `user?.email` is taken to be defined.
- The add-job form (client/src/pages/AddJob.jsx) is not part of this model. Its `bidCount: 0` appears only as the hypothesis of `Server.Store.AddJob`'s invariant clause.
- The axios interceptor (client/src/hooks/useAxiosSecure.jsx), `JobCard` formatting and `HomeTabs` are display or session code and are left out.
- The component that supplies `prevStatus` and `newStatus` to the two guards (the bid tables) is not part of this model. The model therefore does not decide which status spellings the UI actually sends.

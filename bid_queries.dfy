/**
 * The bid collection as a sequence in insertion order, with the three
 * driver calls the routes make on it (`find(filter).toArray()`,
 * `findOne(filter)`, `updateOne(filter, {$set})`), the invariants the
 * add-bid route is meant to keep, and the lemmas that connect them.
 */
module BidQueries {
  import opened Records

  /** `find(filter).toArray()`: the matching bids, in stored order. */
  function Where(s: seq<Bid>, f: BidFilter): (r: seq<Bid>)
    ensures |r| <= |s|
    ensures forall b :: b in r <==> b in s && Matches(b, f)
  {
    if s == [] then []
    else (if Matches(s[0], f) then [s[0]] else []) + Where(s[1..], f)
  }

  /** Filtering distributes over concatenation, so earlier bids come out first. */
  lemma {:induction false} WhereConcat(s: seq<Bid>, t: seq<Bid>, f: BidFilter)
    ensures Where(s + t, f) == Where(s, f) + Where(t, f)
  {
    if s == [] {
      assert s + t == t;
    } else {
      assert (s + t)[1..] == s[1..] + t;
      WhereConcat(s[1..], t, f);
    }
  }

  /** `findOne(filter)`: the position of the first matching bid, if there is one. */
  function First(s: seq<Bid>, f: BidFilter): (r: Option<nat>)
    ensures r.Some? ==> r.value < |s| && Matches(s[r.value], f)
    ensures r.Some? ==> forall j :: 0 <= j < r.value ==> !Matches(s[j], f)
    ensures r.None? <==> forall j :: 0 <= j < |s| ==> !Matches(s[j], f)
  {
    if s == [] then None
    else if Matches(s[0], f) then Some(0)
    else match First(s[1..], f)
      case None => None
      case Some(k) => Some(k + 1)
  }

  /** `findOne` finds nothing exactly when `find` lists nothing. */
  lemma FirstNoneIffWhereEmpty(s: seq<Bid>, f: BidFilter)
    ensures First(s, f).None? <==> Where(s, f) == []
  {
    if Where(s, f) != [] {
      var b := Where(s, f)[0];
      assert b in s && Matches(b, f);
      var i :| 0 <= i < |s| && s[i] == b;
    }
    if First(s, f).Some? {
      assert s[First(s, f).value] in Where(s, f);
    }
  }

  /** `updateOne(filter, update)`: only the first matching bid is rewritten. */
  function UpdateFirst(s: seq<Bid>, f: BidFilter, u: BidUpdate): (r: seq<Bid>)
    ensures |r| == |s|
    ensures First(s, f).None? ==> r == s
    ensures First(s, f).Some? ==>
              var k := First(s, f).value; r == s[k := ApplyUpdate(s[k], u)]
  {
    if s == [] then []
    else if Matches(s[0], f) then [ApplyUpdate(s[0], u)] + s[1..]
    else [s[0]] + UpdateFirst(s[1..], f, u)
  }

  /** `_id` is unique in the collection. */
  predicate UniqueIds(s: seq<Bid>) {
    forall i, j :: 0 <= i < j < |s| ==> s[i].id != s[j].id
  }

  /** At most one bid per (jobId, bidder email) pair. */
  predicate OneBidPerPair(s: seq<Bid>) {
    forall i, j :: 0 <= i < j < |s| ==> s[i].jobId != s[j].jobId || s[i].email != s[j].email
  }

  /** Every stored job's `bidCount` is the number of bids that name it. */
  predicate CountsMatch(jobs: map<JobId, Job>, s: seq<Bid>) {
    forall id :: id in jobs ==> jobs[id].bidCount == |Where(s, JobIs(id))|
  }

  /** Appending one bid adds one to its own job's count and nothing to any other. */
  lemma CountAfterAppend(s: seq<Bid>, b: Bid, job: JobId)
    ensures |Where(s + [b], JobIs(job))| == |Where(s, JobIs(job))| + (if b.jobId == job then 1 else 0)
  {
    WhereConcat(s, [b], JobIs(job));
  }

  /** `updateOne({_id: jobId}, {$inc: {bidCount: 1}})` on the jobs collection. */
  function IncBidCount(jobs: map<JobId, Job>, jobId: JobId): (r: map<JobId, Job>)
    ensures r.Keys == jobs.Keys
    ensures forall id :: id in r && id != jobId ==> r[id] == jobs[id]
    ensures jobId in r ==> r[jobId] == jobs[jobId].(bidCount := jobs[jobId].bidCount + 1)
  {
    if jobId in jobs then jobs[jobId := jobs[jobId].(bidCount := jobs[jobId].bidCount + 1)] else jobs
  }

  /** Inserting a bid and incrementing its job's counter keeps every counter right. */
  lemma InsertKeepsCounts(jobs: map<JobId, Job>, s: seq<Bid>, b: Bid)
    requires CountsMatch(jobs, s)
    ensures CountsMatch(IncBidCount(jobs, b.jobId), s + [b])
  {
    var after := IncBidCount(jobs, b.jobId);
    forall id | id in after
      ensures after[id].bidCount == |Where(s + [b], JobIs(id))|
    {
      CountAfterAppend(s, b, id);
    }
  }

  /** Two collections that agree, position by position, on a filter give as many hits. */
  lemma {:induction false} SameMatchesSameCount(s: seq<Bid>, t: seq<Bid>, f: BidFilter)
    requires |s| == |t|
    requires forall i :: 0 <= i < |s| ==> (Matches(s[i], f) <==> Matches(t[i], f))
    ensures |Where(s, f)| == |Where(t, f)|
  {
    if s != [] {
      assert Matches(s[0], f) <==> Matches(t[0], f);
      SameMatchesSameCount(s[1..], t[1..], f);
    }
  }

  /** An appended bid whose id and pair are both new keeps both uniqueness invariants. */
  lemma AppendKeepsUniqueness(s: seq<Bid>, b: Bid)
    requires First(s, IdIs(b.id)).None? && First(s, JobAndEmail(b.jobId, b.email)).None?
    ensures UniqueIds(s) ==> UniqueIds(s + [b])
    ensures OneBidPerPair(s) ==> OneBidPerPair(s + [b])
  {
    var t := s + [b];
    forall i | 0 <= i < |s|
      ensures t[i].id != b.id && (t[i].jobId != b.jobId || t[i].email != b.email)
    {
      assert !Matches(s[i], IdIs(b.id)) && !Matches(s[i], JobAndEmail(b.jobId, b.email));
    }
  }

  /** Position by position, the two collections hold bids with the same id, jobId and email. */
  predicate SameKeys(s: seq<Bid>, t: seq<Bid>) {
    |s| == |t| &&
    forall i :: 0 <= i < |s| ==> s[i].id == t[i].id && s[i].jobId == t[i].jobId && s[i].email == t[i].email
  }

  /** The invariants read nothing but ids, jobIds and emails. */
  lemma SameKeysKeepInvariants(jobs: map<JobId, Job>, s: seq<Bid>, t: seq<Bid>)
    requires SameKeys(s, t)
    ensures UniqueIds(s) ==> UniqueIds(t)
    ensures OneBidPerPair(s) ==> OneBidPerPair(t)
    ensures CountsMatch(jobs, s) ==> CountsMatch(jobs, t)
  {
    forall id | id in jobs
      ensures |Where(t, JobIs(id))| == |Where(s, JobIs(id))|
    {
      SameMatchesSameCount(t, s, JobIs(id));
    }
  }

  /** An update keeps every invariant, because it never rewrites an id, a jobId or an email. */
  lemma UpdateKeepsInvariants(jobs: map<JobId, Job>, s: seq<Bid>, f: BidFilter, u: BidUpdate)
    ensures UniqueIds(s) ==> UniqueIds(UpdateFirst(s, f, u))
    ensures OneBidPerPair(s) ==> OneBidPerPair(UpdateFirst(s, f, u))
    ensures CountsMatch(jobs, s) ==> CountsMatch(jobs, UpdateFirst(s, f, u))
  {
    var t := UpdateFirst(s, f, u);
    if First(s, f).Some? {
      var k := First(s, f).value;
      assert t == s[k := ApplyUpdate(s[k], u)];
    }
    assert SameKeys(s, t);
    SameKeysKeepInvariants(jobs, s, t);
  }

  /**
   * When ids are unique, updating by id rewrites exactly the bid with that id
   * and leaves every other position as it was.
   */
  lemma UpdateByIdAt(s: seq<Bid>, id: BidId, u: BidUpdate, i: nat)
    requires UniqueIds(s) && i < |s|
    ensures |UpdateFirst(s, IdIs(id), u)| == |s|
    ensures UpdateFirst(s, IdIs(id), u)[i] == if s[i].id == id then ApplyUpdate(s[i], u) else s[i]
  {
    var k := First(s, IdIs(id));
    if k.Some? && s[i].id == id {
      assert s[k.value].id == s[i].id;
    }
  }

  /** Updating by id changes the collection exactly when a bid has that id and the update alters it. */
  lemma UpdateByIdChanges(s: seq<Bid>, id: BidId, u: BidUpdate)
    requires UniqueIds(s)
    ensures UpdateFirst(s, IdIs(id), u) != s <==>
              exists i :: 0 <= i < |s| && s[i].id == id && ApplyUpdate(s[i], u) != s[i]
  {
    var t := UpdateFirst(s, IdIs(id), u);
    if t != s {
      var k := First(s, IdIs(id)).value;
      assert s[k].id == id && ApplyUpdate(s[k], u) != s[k];
    }
    if exists i :: 0 <= i < |s| && s[i].id == id && ApplyUpdate(s[i], u) != s[i] {
      var i :| 0 <= i < |s| && s[i].id == id && ApplyUpdate(s[i], u) != s[i];
      UpdateByIdAt(s, id, u, i);
      assert t[i] != s[i];
    }
  }
}

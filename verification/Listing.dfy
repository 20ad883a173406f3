/** What the Redis store lists, and when that is what the in-memory store lists. */
module Listing {
  import opened Order
  import opened Jobs
  import opened Wrappers
  import opened MemoryStores
  import opened RedisStores
  import opened Refinement

  /** The whole filtered listing that the batched scan cuts its pages from. */
  ghost function RedisListing(r: Redis, f: JobFilter): seq<Job> {
    Hits(r.jobs, RevIndex(r.created), f)
  }

  /** Newest first and, unlike in the in-memory store, by descending id among equals. */
  ghost predicate ScannedBefore(a: Job, b: Job) {
    a.createdAt > b.createdAt || (a.createdAt == b.createdAt && StrLt(b.id, a.id))
  }

  ghost predicate InScanOrder(jobs: seq<Job>) {
    forall i, k :: 0 <= i < k < |jobs| ==> ScannedBefore(jobs[i], jobs[k])
  }

  /** The stored ids are in scan order. */
  ghost predicate IdsInOrder(jobs: Store, ids: seq<string>) {
    forall i, k :: 0 <= i < k < |ids| && ids[i] in jobs && ids[k] in jobs ==> ScannedBefore(jobs[ids[i]], jobs[ids[k]])
  }

  lemma {:induction false} HitsContents(jobs: Store, ids: seq<string>, f: JobFilter, j: Job)
    ensures j in Hits(jobs, ids, f) <==>
              exists n :: 0 <= n < |ids| && ids[n] in jobs && jobs[ids[n]] == j && Matches(f, j)
    decreases |ids|
  {
    if ids != [] {
      var before, id := ids[..|ids| - 1], ids[|ids| - 1];
      HitsContents(jobs, before, f, j);
      assert forall n :: 0 <= n < |before| ==> before[n] == ids[n];
      if id in jobs && jobs[id] == j && Matches(f, j) {
        assert j in Hits(jobs, ids, f);
      }
    }
  }

  lemma {:induction false} HitsOrdered(jobs: Store, ids: seq<string>, f: JobFilter)
    requires IdsInOrder(jobs, ids)
    ensures InScanOrder(Hits(jobs, ids, f))
    decreases |ids|
  {
    if ids != [] {
      var before, id := ids[..|ids| - 1], ids[|ids| - 1];
      assert IdsInOrder(jobs, before) by {
        assert forall n :: 0 <= n < |before| ==> before[n] == ids[n];
      }
      HitsOrdered(jobs, before, f);
      var hits := Hits(jobs, before, f);
      forall i | 0 <= i < |hits| && id in jobs
        ensures ScannedBefore(hits[i], jobs[id])
      {
        HitsContents(jobs, before, f, hits[i]);
        var n :| 0 <= n < |before| && before[n] in jobs && jobs[before[n]] == hits[i];
        assert ids[n] == before[n];
      }
    }
  }

  lemma RevIndexInOrder(r: Redis)
    requires IndexesAgree(r)
    ensures IdsInOrder(r.jobs, RevIndex(r.created))
  {
    hide Sort, AvailableOf, TerminalOf, StrLt;
    var ks, ids := Sort(AllKeys(r.created)), RevIndex(r.created);
    forall i | 0 <= i < |ids|
      ensures ids[i] in r.jobs && ks[|ks| - 1 - i] == Key(r.jobs[ids[i]].createdAt, ids[i])
                && r.jobs[ids[i]].id == ids[i]
    {
      assert ks[|ks| - 1 - i] in Elems(ks);
    }
    forall i, k | 0 <= i < k < |ids|
      ensures ScannedBefore(r.jobs[ids[i]], r.jobs[ids[k]])
    {
      assert Lt(ks[|ks| - 1 - k], ks[|ks| - 1 - i]);
    }
  }

  lemma RevIndexHolds(r: Redis, id: string) returns (n: nat)
    requires IndexesAgree(r) && id in r.jobs
    ensures n < |RevIndex(r.created)| && RevIndex(r.created)[n] == id
  {
    hide Sort, AvailableOf, TerminalOf, StrLt;
    var ks := Sort(AllKeys(r.created));
    assert Key(r.created[id], id) in Elems(ks);
    var i :| 0 <= i < |ks| && ks[i] == Key(r.created[id], id);
    n := |ks| - 1 - i;
  }

  lemma RedisListingFacts(r: Redis, f: JobFilter)
    requires IndexesAgree(r)
    ensures InScanOrder(RedisListing(r, f))
    ensures forall id :: id in r.jobs && Matches(f, r.jobs[id]) ==> r.jobs[id] in RedisListing(r, f)
    ensures forall j :: j in RedisListing(r, f) ==> Get(r.jobs, j.id) == Some(j) && Matches(f, j)
  {
    hide Hits, RevIndex;
    RevIndexInOrder(r);
    HitsOrdered(r.jobs, RevIndex(r.created), f);
    forall id | id in r.jobs && Matches(f, r.jobs[id])
      ensures r.jobs[id] in RedisListing(r, f)
    {
      var n := RevIndexHolds(r, id);
      HitsContents(r.jobs, RevIndex(r.created), f, r.jobs[id]);
    }
    forall j | j in RedisListing(r, f)
      ensures Get(r.jobs, j.id) == Some(j) && Matches(f, j)
    {
      HitsContents(r.jobs, RevIndex(r.created), f, j);
    }
  }

  /** The scan lists exactly the stored jobs the filter's fields ask for, each once, newest first, ties by descending
      id. */
  lemma RedisListingIsOrdered(r: Redis, f: JobFilter)
    requires IndexesAgree(r)
    ensures InScanOrder(RedisListing(r, f))
    ensures forall id :: id in r.jobs ==> (r.jobs[id] in RedisListing(r, f) <==> Wanted(f, r.jobs[id]))
    ensures forall j :: j in RedisListing(r, f) ==> Get(r.jobs, j.id) == Some(j)
  {
    hide RedisListing, Matches, Wanted, InScanOrder;
    RedisListingFacts(r, f);
    forall id | id in r.jobs
      ensures r.jobs[id] in RedisListing(r, f) <==> Wanted(f, r.jobs[id])
    {
      MatchesIff(f, r.jobs[id]);
    }
  }

  /** No two matching jobs were created at the same time. */
  ghost predicate NoTies(jobs: Store, f: JobFilter) {
    forall a, b ::
      a in jobs && b in jobs && Matches(f, jobs[a]) && Matches(f, jobs[b]) && jobs[a].createdAt == jobs[b].createdAt ==>
        a == b
  }

  function ListKeyOf(j: Job): Key {
    Key(-j.createdAt, j.id)
  }

  function ListKeysOf(jobs: seq<Job>): (r: seq<Key>)
    ensures |r| == |jobs| && forall i :: 0 <= i < |r| ==> r[i] == ListKeyOf(jobs[i])
  {
    seq(|jobs|, i requires 0 <= i < |jobs| => ListKeyOf(jobs[i]))
  }

  lemma ScanKeys(r: Redis, f: JobFilter)
    requires IndexesAgree(r) && NoTies(r.jobs, f)
    ensures ListKeysOf(RedisListing(r, f)) == ListOrder(r.jobs, f)
  {
    hide RedisListing;
    var listing := RedisListing(r, f);
    RedisListingFacts(r, f);
    var ks := ListKeysOf(listing);
    forall i, k | 0 <= i < k < |ks|
      ensures Lt(ks[i], ks[k])
    {
      ScanStep(r, f, listing[i], listing[k]);
    }
    forall k
      ensures k in Elems(ks) <==> k in ListKeys(r.jobs, f)
    {
      ScanHasKey(r, f, listing, k);
    }
    SortUnique(ks, ListKeys(r.jobs, f));
    SortedKeys(r.jobs, f);
  }

  /** Without ties scan order is listing order. */
  lemma ScanStep(r: Redis, f: JobFilter, a: Job, b: Job)
    requires NoTies(r.jobs, f) && ScannedBefore(a, b)
    requires Get(r.jobs, a.id) == Some(a) && Get(r.jobs, b.id) == Some(b) && Matches(f, a) && Matches(f, b)
    ensures Lt(ListKeyOf(a), ListKeyOf(b))
  {
    hide StrLt, Matches;
    StrLtTotal(a.id, b.id);
  }

  lemma ScanHasKey(r: Redis, f: JobFilter, listing: seq<Job>, k: Key)
    requires Keyed(r.jobs)
    requires forall id :: id in r.jobs && Matches(f, r.jobs[id]) ==> r.jobs[id] in listing
    requires forall j :: j in listing ==> Get(r.jobs, j.id) == Some(j) && Matches(f, j)
    ensures k in Elems(ListKeysOf(listing)) <==> k in ListKeys(r.jobs, f)
  {
    hide Matches;
    var ks := ListKeysOf(listing);
    if k in Elems(ks) {
      var i :| 0 <= i < |ks| && ks[i] == k;
      assert listing[i] in listing;
    }
    if k in ListKeys(r.jobs, f) {
      assert r.jobs[k.id] in listing;
      var i :| 0 <= i < |listing| && listing[i] == r.jobs[k.id];
      assert ks[i] == k;
    }
  }

  lemma NotBefore(listing: seq<Job>, i: nat, k: nat)
    requires InScanOrder(listing) && i < |listing| && k < |listing| && i != k && !ScannedBefore(listing[i], listing[k])
    ensures k < i
  {
  }

  lemma TiesDiffer(r: Redis, f: JobFilter, a: string, b: string)
    requires IndexesAgree(r) && a in r.jobs && b in r.jobs && Matches(f, r.jobs[a]) && Matches(f, r.jobs[b])
    requires r.jobs[a].createdAt == r.jobs[b].createdAt && StrLt(a, b)
    ensures RedisListing(r, f) != ListAll(r.jobs, f)
  {
    hide RedisListing, ListAll, StrLt;
    RedisListingFacts(r, f);
    ListingFacts(r.jobs, f);
    StrLtTotal(a, b);
    var listing, all := RedisListing(r, f), ListAll(r.jobs, f);
    var i :| 0 <= i < |listing| && listing[i] == r.jobs[a];
    var k :| 0 <= k < |listing| && listing[k] == r.jobs[b];
    NotBefore(listing, i, k);
    assert i < |all| ==> ListedBefore(all[k], all[i]);
  }

  /** Of the same jobs both stores make the same listing exactly when no two of them were created in the same
      millisecond. */
  lemma OrdersAgreeIff(r: Redis, f: JobFilter)
    requires IndexesAgree(r)
    ensures RedisListing(r, f) == ListAll(r.jobs, f) <==> NoTies(r.jobs, f)
  {
    hide RedisListing, Matches;
    if NoTies(r.jobs, f) {
      ScanKeys(r, f);
      RedisListingFacts(r, f);
      var listing, ks := RedisListing(r, f), ListOrder(r.jobs, f);
      forall i | 0 <= i < |listing|
        ensures ks[i].id in r.jobs && r.jobs[ks[i].id] == listing[i]
      {
        assert listing[i] in listing;
        assert ListKeysOf(listing)[i] == ks[i];
      }
    } else {
      var a, b :|
        && a in r.jobs && b in r.jobs && Matches(f, r.jobs[a]) && Matches(f, r.jobs[b])
        && r.jobs[a].createdAt == r.jobs[b].createdAt && a != b;
      StrLtTotal(a, b);
      if StrLt(a, b) {
        TiesDiffer(r, f, a, b);
      } else {
        TiesDiffer(r, f, b, a);
      }
    }
  }

  // ---------------------------------------------------------------------------------------------
  // Related states of the two stores

  /** The filter matches the same jobs of both stores. */
  ghost predicate SameMatches(a: Store, b: Store, f: JobFilter) {
    forall id :: id in a && id in b ==> (Matches(f, a[id]) <==> Matches(f, b[id]))
  }

  /** The filter names both pending statuses or neither, so it cannot tell a promoted job. */
  predicate Unsplit(f: JobFilter) {
    Queued in f.statuses <==> Scheduled in f.statuses
  }

  lemma UnsplitMatches(r: Redis, m: Store, f: JobFilter)
    requires Related(r, m) && Unsplit(f)
    ensures SameMatches(r.jobs, m, f)
  {
    hide IndexesAgree, BlurAll;
    forall id | id in r.jobs && id in m
      ensures Matches(f, r.jobs[id]) <==> Matches(f, m[id])
    {
      SameJob(r.jobs, m, id);
    }
  }

  lemma BlurKeeps(a: Job, b: Job)
    requires Blur(a) == Blur(b)
    ensures a.id == b.id && a.createdAt == b.createdAt
    ensures b == a.(status := b.status, updatedAt := b.updatedAt)
    ensures a.status == b.status || (a.status.IsPending() && b.status.IsPending())
  {
  }

  lemma BlurAt(xs: seq<Job>, ys: seq<Job>, i: nat)
    requires BlurSeq(xs) == BlurSeq(ys) && i < |xs|
    ensures |ys| == |xs| && Blur(xs[i]) == Blur(ys[i]) && xs[i].id == ys[i].id
  {
    assert |BlurSeq(xs)| == |xs| && |BlurSeq(ys)| == |ys|;
    assert BlurSeq(xs)[i] == BlurSeq(ys)[i];
    BlurKeeps(xs[i], ys[i]);
  }

  /** Equal blurred listings hold the same ids, so the filter matched the same jobs. */
  lemma EqualListingsMatch(r: Redis, m: Store, f: JobFilter, id: string)
    requires Related(r, m) && BlurSeq(RedisListing(r, f)) == BlurSeq(ListAll(m, f))
    requires id in r.jobs && id in m
    ensures Matches(f, r.jobs[id]) <==> Matches(f, m[id])
  {
    hide RedisListing, ListAll, BlurSeq, Matches, InScanOrder, ListedBefore;
    var xs, ys := RedisListing(r, f), ListAll(m, f);
    RedisListingFacts(r, f);
    ListingFacts(m, f);
    if Matches(f, r.jobs[id]) {
      assert r.jobs[id] in xs;
      var i :| 0 <= i < |xs| && xs[i] == r.jobs[id];
      BlurAt(xs, ys, i);
      assert ys[i] in ys;
    }
    if Matches(f, m[id]) {
      assert m[id] in ys;
      var i :| 0 <= i < |ys| && ys[i] == m[id];
      BlurAt(ys, xs, i);
      assert xs[i] in xs;
    }
  }

  lemma SameListKeys(a: Store, b: Store, f: JobFilter)
    requires BlurAll(a) == BlurAll(b) && SameMatches(a, b, f)
    ensures ListKeys(a, f) == ListKeys(b, f)
  {
    hide Matches, BlurAll, Blur;
    forall k
      ensures k in ListKeys(a, f) <==> k in ListKeys(b, f)
    {
      SameJob(a, b, k.id);
      if k.id in a {
        BlurKeeps(a[k.id], b[k.id]);
      }
    }
  }

  lemma ListAllBlurred(a: Store, b: Store, f: JobFilter)
    requires BlurAll(a) == BlurAll(b) && SameMatches(a, b, f)
    ensures BlurSeq(ListAll(a, f)) == BlurSeq(ListAll(b, f))
  {
    hide BlurAll, Blur, ListKeys, SameMatches;
    SameListKeys(a, b, f);
    SortedKeys(a, f);
    SortedKeys(b, f);
    var ks := ListOrder(a, f);
    forall i | 0 <= i < |ks|
      ensures Blur(ListAll(a, f)[i]) == Blur(ListAll(b, f)[i])
    {
      assert ks[i] in ks;
      SameJob(a, b, ks[i].id);
    }
  }

  /** Listings of one store that look the same are the same. */
  lemma BlurredSame(store: Store, xs: seq<Job>, ys: seq<Job>)
    requires forall j :: j in xs || j in ys ==> Get(store, j.id) == Some(j)
    requires BlurSeq(xs) == BlurSeq(ys)
    ensures xs == ys
  {
    hide BlurSeq, Blur;
    BlurLength(xs);
    BlurLength(ys);
    forall i | 0 <= i < |xs|
      ensures xs[i] == ys[i]
    {
      BlurAt(xs, ys, i);
      assert xs[i] in xs && ys[i] in ys;
    }
  }

  /** In related states the two stores list the same jobs in the same order, up to the pending status and the update
      time, exactly when the filter matches the same jobs in both and no two of them were created in the same
      millisecond. */
  lemma ListingsAgreeIff(r: Redis, m: Store, f: JobFilter)
    requires Related(r, m)
    ensures BlurSeq(RedisListing(r, f)) == BlurSeq(ListAll(m, f)) <==> SameMatches(r.jobs, m, f) && NoTies(r.jobs, f)
  {
    hide RedisListing, ListAll, BlurSeq, BlurAll, NoTies, Matches, InScanOrder, ListedBefore, IndexesAgree;
    if BlurSeq(RedisListing(r, f)) == BlurSeq(ListAll(m, f)) {
      forall id | id in r.jobs && id in m
        ensures Matches(f, r.jobs[id]) <==> Matches(f, m[id])
      {
        EqualListingsMatch(r, m, f, id);
      }
    }
    if SameMatches(r.jobs, m, f) {
      ListAllBlurred(r.jobs, m, f);
      OrdersAgreeIff(r, f);
      if BlurSeq(RedisListing(r, f)) == BlurSeq(ListAll(m, f)) {
        OneStore(r, f);
      }
    }
  }

  lemma OneStore(r: Redis, f: JobFilter)
    requires IndexesAgree(r) && BlurSeq(RedisListing(r, f)) == BlurSeq(ListAll(r.jobs, f))
    ensures RedisListing(r, f) == ListAll(r.jobs, f)
  {
    hide RedisListing, ListAll, BlurSeq, Matches, InScanOrder, ListedBefore;
    RedisListingFacts(r, f);
    ListingFacts(r.jobs, f);
    BlurredSame(r.jobs, RedisListing(r, f), ListAll(r.jobs, f));
  }
}

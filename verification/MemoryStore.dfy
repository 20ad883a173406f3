/** The in-memory job store: what each call computes, and the class that computes it in place. */
module MemoryStores {
  import opened Order
  import opened Jobs
  import opened Wrappers

  // ---------------------------------------------------------------------------------------------
  // What the calls compute

  /** A scheduled job whose time has come is shown as queued from the next scan on. */
  function Promote(j: Job, now: int): Job {
    if j.status.Scheduled? && j.availableAt <= now then j.(status := Queued, updatedAt := now) else j
  }

  predicate CanClaim(j: Job, now: int, f: ClaimFilter) {
    Due(j, now) && MemoryAllows(f, j.queue, j.kind)
  }

  function Eligible(m: Store, now: int, f: ClaimFilter): set<Key> {
    set id | id in m && CanClaim(m[id], now, f) :: KeyAt(m, id)
  }

  /** The keys a claim takes: the first `limit` eligible ones by availability, then id. */
  ghost function Chosen(m: Store, now: int, limit: int, f: ClaimFilter): (r: seq<Key>)
    ensures Ascending(r)
    ensures Elems(r) <= Eligible(m, now, f)
  {
    var all := Sort(Eligible(m, now, f));
    assert Elems(Take(limit, all)) <= Elems(all);
    Take(limit, all)
  }

  /** The store after the chosen jobs were started and the other due ones promoted. */
  ghost function AfterClaim(m: Store, chosen: seq<Key>, now: int): Store {
    map id | id in m :: if KeyAt(m, id) in chosen then StartAttempt(m[id], now) else Promote(m[id], now)
  }

  ghost function ClaimResult(m: Store, now: int, limit: int, f: ClaimFilter): (Store, seq<Job>) {
    if limit <= 0 then (m, [])
    else
      var chosen := Chosen(m, now, limit, f);
      assert forall k :: k in chosen ==> k in Elems(chosen);
      (AfterClaim(m, chosen, now), Started(m, chosen, now))
  }

  function Prunable(m: Store, cutoff: int): set<string> {
    set id | id in m && m[id].status.IsTerminal() && m[id].completedAt.Some? && m[id].completedAt.value < cutoff
  }

  function PruneResult(m: Store, cutoff: int): (Store, nat) {
    (m - Prunable(m, cutoff), |Prunable(m, cutoff)|)
  }

  ghost function Step(m: Store, op: Op): (Store, Reply) {
    match op
    case Create(job) =>
      if job.id in m then (m, Refused(AlreadyExists)) else (m[job.id := job], Stored(job))
    case Change(id, u) =>
      if id !in m then (m, Refused(NotFound))
      else (match Apply(u, m[id])
            case Ok(j) => (m[id := j], Stored(j))
            case Err(e) => (m, Refused(e)))
    case Claim(now, limit, f) =>
      var (m', claimed) := ClaimResult(m, now, limit, f);
      (m', Claimed(claimed))
    case Prune(cutoff) =>
      var (m', removed) := PruneResult(m, cutoff);
      (m', Removed(removed))
  }

  lemma ChosenSplits(m: Store, now: int, limit: int, f: ClaimFilter, k: Key, i: nat)
    requires limit > 0
    ensures |Chosen(m, now, limit, f)| == if |Eligible(m, now, f)| < limit then |Eligible(m, now, f)| else limit
    ensures k in Eligible(m, now, f) && k !in Chosen(m, now, limit, f) && i < |Chosen(m, now, limit, f)| ==>
              Lt(Chosen(m, now, limit, f)[i], k)
  {
    var all := Sort(Eligible(m, now, f));
    if k in Eligible(m, now, f) && k !in Take(limit, all) {
      assert k in Elems(all);
      var n :| 0 <= n < |all| && all[n] == k;
    }
  }

  /** Whatever store starts the chosen jobs and at most promotes the others honours the claim contract. */
  lemma ChosenMeetContract(m: Store, now: int, limit: int, chosen: seq<Key>, m': Store)
    requires Keyed(m) && Ascending(chosen) && |chosen| <= limit && (limit <= 0 ==> m' == m)
    requires Startable(m, chosen, now)
    requires m'.Keys == m.Keys
    requires forall id :: id in m ==>
               if KeyAt(m, id) in chosen then m'[id] == StartAttempt(m[id], now)
               else m'[id] == m[id] || m'[id] == Promote(m[id], now)
    ensures ClaimContract(m, now, limit, m', Started(m, chosen, now))
    ensures Keyed(m')
  {
    var claimed := Started(m, chosen, now);
    forall i | 0 <= i < |claimed|
      ensures claimed[i].id == chosen[i].id && chosen[i] == KeyAt(m, chosen[i].id) && Due(m[chosen[i].id], now)
    {
      assert chosen[i] in chosen;
    }
    forall i, j | 0 <= i < j < |claimed| ensures claimed[i].id != claimed[j].id {
      if claimed[i].id == claimed[j].id {
        AscendingDistinct(chosen, i, j);
      }
    }
    forall id | id in m && KeyAt(m, id) in chosen ensures exists i :: 0 <= i < |claimed| && claimed[i].id == id {
      var i :| 0 <= i < |chosen| && chosen[i] == KeyAt(m, id);
      assert claimed[i].id == id;
    }
  }

  lemma ClaimOptimum(m: Store, now: int, limit: int, f: ClaimFilter, m': Store, claimed: seq<Job>)
    requires Keyed(m) && limit > 0
    requires (m', claimed) == ClaimResult(m, now, limit, f)
    ensures |claimed| == if |Eligible(m, now, f)| < limit then |Eligible(m, now, f)| else limit
    ensures forall i, j :: 0 <= i < j < |claimed| ==> Lt(KeyOf(claimed[i]), KeyOf(claimed[j]))
    ensures forall i :: 0 <= i < |claimed| ==> claimed[i].id in m && CanClaim(m[claimed[i].id], now, f)
    ensures forall i, id :: 0 <= i < |claimed| && id in m && CanClaim(m[id], now, f) && !m'[id].status.Running? ==>
              Lt(KeyOf(claimed[i]), KeyOf(m[id]))
    ensures ClaimContract(m, now, limit, m', claimed)
  {
    var chosen := Chosen(m, now, limit, f);
    ChosenFacts(m, now, limit, f);
    ChosenMeetContract(m, now, limit, chosen, m');
    forall i | 0 <= i < |claimed| ensures KeyOf(claimed[i]) == chosen[i] && CanClaim(m[claimed[i].id], now, f) {
      assert chosen[i] in chosen;
    }
    forall i, id | 0 <= i < |claimed| && id in m && CanClaim(m[id], now, f) && !m'[id].status.Running?
      ensures Lt(KeyOf(claimed[i]), KeyOf(m[id]))
    {
      ChosenSplits(m, now, limit, f, KeyAt(m, id), i);
    }
  }

  /** The filter's names ask for this one: it is among them, or none of them says anything. */
  ghost predicate Asked(names: seq<string>, name: string) {
    (name != "" && name in names) || forall n :: n in names ==> n == ""
  }

  /** A job that may be claimed, by its fields. */
  ghost predicate Claimable(j: Job, now: int, f: ClaimFilter) {
    && (j.status == Queued || j.status == Scheduled) && j.availableAt <= now
    && Asked(f.queues, j.queue) && Asked(f.kinds, j.kind)
  }

  ghost predicate Sooner(a: Job, b: Job) {
    a.availableAt < b.availableAt || (a.availableAt == b.availableAt && StrLt(a.id, b.id))
  }

  lemma {:induction false} KeysCount(m: Store, ids: set<string>)
    requires ids <= m.Keys
    ensures |set id | id in ids :: KeyAt(m, id)| == |ids|
    decreases |ids|
  {
    if ids != {} {
      var id :| id in ids;
      var rest := ids - {id};
      KeysCount(m, rest);
      var keys, fewer := set x | x in ids :: KeyAt(m, x), set x | x in rest :: KeyAt(m, x);
      assert keys == fewer + {KeyAt(m, id)} && KeyAt(m, id) !in fewer;
    }
  }

  lemma ClaimableCount(m: Store, now: int, f: ClaimFilter)
    ensures |set id | id in m && Claimable(m[id], now, f)| == |Eligible(m, now, f)|
  {
    var ids := set id | id in m && Claimable(m[id], now, f);
    KeysCount(m, ids);
    forall k
      ensures k in Eligible(m, now, f) <==> k in set id | id in ids :: KeyAt(m, id)
    {
      if k in Eligible(m, now, f) {
        assert k.id in ids && k == KeyAt(m, k.id);
      }
    }
    assert Eligible(m, now, f) == set id | id in ids :: KeyAt(m, id);
  }

  /** A claim is optimal and does not depend on the order the jobs are visited in: it returns as many jobs as it may, in
      strict (availability, id) order, every one of them ahead of every claimable job it leaves behind. Exactly those
      begin an attempt; of the others the due scheduled ones become queued, and nothing else changes. */
  lemma ClaimIsOptimal(m: Store, now: int, limit: int, f: ClaimFilter, m': Store, claimed: seq<Job>)
    requires Keyed(m) && limit > 0
    requires (m', claimed) == ClaimResult(m, now, limit, f)
    ensures var n := |set id | id in m && Claimable(m[id], now, f)|;
            |claimed| == if n < limit then n else limit
    ensures forall i, j :: 0 <= i < j < |claimed| ==> Sooner(claimed[i], claimed[j])
    ensures forall i :: 0 <= i < |claimed| ==> claimed[i].id in m && Claimable(m[claimed[i].id], now, f)
    ensures forall i, id :: 0 <= i < |claimed| && id in m && Claimable(m[id], now, f) && m'[id].status != Running ==>
              Sooner(claimed[i], m[id])
    ensures forall id :: id in m && m'[id].status != Running ==>
              m'[id] == if m[id].status == Scheduled && m[id].availableAt <= now
                        then m[id].(status := Queued, updatedAt := now) else m[id]
    ensures ClaimContract(m, now, limit, m', claimed)
  {
    hide Eligible, Lt, ClaimContract;
    ClaimableCount(m, now, f);
    ClaimOptimum(m, now, limit, f, m', claimed);
    ClaimRest(m, now, limit, f, m');
    hide ClaimResult;
    forall i, j | 0 <= i < j < |claimed|
      ensures Sooner(claimed[i], claimed[j])
    {
      LtIsSooner(claimed[i], claimed[j]);
    }
    forall i | 0 <= i < |claimed|
      ensures Claimable(m[claimed[i].id], now, f)
    {
      ClaimableIff(m[claimed[i].id], now, f);
    }
    forall i, id | 0 <= i < |claimed| && id in m && Claimable(m[id], now, f) && m'[id].status != Running
      ensures Sooner(claimed[i], m[id])
    {
      ClaimableIff(m[id], now, f);
      LtIsSooner(claimed[i], m[id]);
    }
  }

  lemma ClaimableIff(j: Job, now: int, f: ClaimFilter)
    ensures Claimable(j, now, f) <==> CanClaim(j, now, f)
  {
  }

  lemma LtIsSooner(a: Job, b: Job)
    ensures Lt(KeyOf(a), KeyOf(b)) <==> Sooner(a, b)
  {
  }

  lemma ClaimRest(m: Store, now: int, limit: int, f: ClaimFilter, m': Store)
    requires limit > 0 && m' == ClaimResult(m, now, limit, f).0
    ensures m'.Keys == m.Keys
    ensures forall id :: id in m && m'[id].status != Running ==>
              m'[id] == if m[id].status == Scheduled && m[id].availableAt <= now
                        then m[id].(status := Queued, updatedAt := now) else m[id]
  {
    hide Chosen;
  }

  lemma ChosenFacts(m: Store, now: int, limit: int, f: ClaimFilter)
    requires limit > 0
    ensures |Chosen(m, now, limit, f)| == if |Eligible(m, now, f)| < limit then |Eligible(m, now, f)| else limit
    ensures forall k :: k in Chosen(m, now, limit, f) ==> k.id in m && k == KeyAt(m, k.id) && CanClaim(m[k.id], now, f)
  {
    forall k | k in Chosen(m, now, limit, f)
      ensures k.id in m && k == KeyAt(m, k.id) && CanClaim(m[k.id], now, f)
    {
      assert k in Elems(Chosen(m, now, limit, f));
    }
  }

  lemma ClaimMeetsContract(m: Store, now: int, limit: int, f: ClaimFilter)
    requires Keyed(m)
    ensures ClaimContract(m, now, limit, ClaimResult(m, now, limit, f).0, ClaimResult(m, now, limit, f).1)
    ensures Keyed(ClaimResult(m, now, limit, f).0)
  {
    if limit > 0 {
      ChosenFacts(m, now, limit, f);
      ChosenMeetContract(m, now, limit, Chosen(m, now, limit, f), ClaimResult(m, now, limit, f).0);
    }
  }

  lemma PruneMeetsContract(m: Store, cutoff: int)
    ensures PruneContract(m, PruneResult(m, cutoff).0)
    ensures forall id :: id in m ==>
              (id !in PruneResult(m, cutoff).0 <==>
                 && (m[id].status == Succeeded || m[id].status == Failed || m[id].status == Canceled)
                 && m[id].completedAt.Some? && m[id].completedAt.value < cutoff)
    ensures PruneResult(m, cutoff).1 + |PruneResult(m, cutoff).0| == |m|
  {
    RemovedCount(m, Prunable(m, cutoff));
  }

  lemma RemovedCount(m: Store, gone: set<string>)
    requires gone <= m.Keys
    ensures |gone| + |m - gone| == |m|
  {
    var kept := m - gone;
    assert m.Keys == kept.Keys + gone;
    assert |m| == |m.Keys| && |kept| == |kept.Keys|;
  }

  lemma RemovalMeetsContract(m: Store, gone: set<string>)
    requires forall id :: id in gone ==> id in m && m[id].status.IsTerminal()
    ensures PruneContract(m, m - gone) && |gone| + |m - gone| == |m|
  {
    RemovedCount(m, gone);
  }

  /** Every call of the in-memory store honours the contract of calls. */
  lemma StepMeetsContract(m: Store, op: Op)
    requires Keyed(m)
    ensures CallContract(m, op, Step(m, op).1, Step(m, op).0)
    ensures Keyed(Step(m, op).0)
  {
    hide ClaimContract, PruneContract, ClaimResult;
    match op
    case Create(_) =>
    case Change(_, _) =>
    case Claim(now, limit, f) =>
      hide Keyed;
      ClaimMeetsContract(m, now, limit, f);
    case Prune(cutoff) =>
      PruneStepMeetsContract(m, cutoff);
  }

  lemma PruneStepMeetsContract(m: Store, cutoff: int)
    requires Keyed(m)
    ensures CallContract(m, Op.Prune(cutoff), Step(m, Op.Prune(cutoff)).1, Step(m, Op.Prune(cutoff)).0)
    ensures Keyed(Step(m, Op.Prune(cutoff)).0)
  {
    hide PruneContract, Prunable;
    PruneMeetsContract(m, cutoff);
  }

  // ---------------------------------------------------------------------------------------------
  // Listing

  datatype JobFilter = JobFilter(queue: string, kind: string, statuses: seq<Status>, limit: int, offset: int)

  predicate Matches(f: JobFilter, j: Job) {
    && (f.queue != "" ==> j.queue == f.queue)
    && (f.kind != "" ==> j.kind == f.kind)
    && (f.statuses != [] ==> j.status in f.statuses)
  }

  /** What a list filter asks for, by its fields. */
  ghost predicate Wanted(f: JobFilter, j: Job) {
    && (f.queue == "" || j.queue == f.queue)
    && (f.kind == "" || j.kind == f.kind)
    && (f.statuses == [] || exists i :: 0 <= i < |f.statuses| && j.status == f.statuses[i])
  }

  lemma MatchesIff(f: JobFilter, j: Job)
    ensures Matches(f, j) <==> Wanted(f, j)
  {
  }

  /** Newest first, ties by ascending id. */
  function ListKeys(m: Store, f: JobFilter): (r: set<Key>)
    ensures forall k :: k in r ==> k.id in m
  {
    set id | id in m && Matches(f, m[id]) :: Key(-m[id].createdAt, id)
  }

  function JobsAt(m: Store, ks: seq<Key>): (r: seq<Job>)
    requires forall k :: k in ks ==> k.id in m
    ensures |r| == |ks|
    ensures forall i :: 0 <= i < |r| ==> r[i] == m[ks[i].id]
  {
    seq(|ks|, i requires 0 <= i < |ks| => assert ks[i] in ks; m[ks[i].id])
  }

  ghost function ListOrder(m: Store, f: JobFilter): (r: seq<Key>)
    ensures forall k :: k in r ==> k.id in m
  {
    var ks := Sort(ListKeys(m, f));
    assert forall k :: k in ks ==> k in Elems(ks);
    ks
  }

  lemma SortedKeys(m: Store, f: JobFilter)
    ensures ListOrder(m, f) == Sort(ListKeys(m, f))
  {
  }

  ghost function ListAll(m: Store, f: JobFilter): seq<Job> {
    JobsAt(m, ListOrder(m, f))
  }

  /** The window of a listing that a filter's offset and limit select. */
  function Page(all: seq<Job>, offset: int, limit: int): seq<Job> {
    if limit <= 0 then Drop(offset, all) else Take(limit, Drop(offset, all))
  }

  /** A page is the run of the listing that starts at the offset, or at the front if that is negative, and goes on for
      `limit` jobs, or to the end if that is not positive or too much. */
  lemma PageIs(all: seq<Job>, offset: int, limit: int, i: nat)
    ensures var from := if offset < 0 then 0 else offset;
            && |Page(all, offset, limit)| ==
               (if from >= |all| then 0 else if limit <= 0 || limit > |all| - from then |all| - from else limit)
            && (i < |Page(all, offset, limit)| ==> Page(all, offset, limit)[i] == all[from + i])
  {
  }

  /** The pages of size `n` at `offset`, `offset + n`, ... up to the end of the listing. */
  ghost function PagesFrom(all: seq<Job>, n: int, offset: nat): seq<seq<Job>>
    requires n > 0
    decreases |all| - offset
  {
    if offset >= |all| then [] else [Page(all, offset, n)] + PagesFrom(all, n, offset + n)
  }

  function Concat<T>(ss: seq<seq<T>>): seq<T> {
    if ss == [] then [] else ss[0] + Concat(ss[1..])
  }

  lemma {:induction false} PagesFromConcat(all: seq<Job>, n: int, offset: nat)
    requires n > 0
    ensures Concat(PagesFrom(all, n, offset)) == Drop(offset, all)
    decreases |all| - offset
  {
    hide PagesFrom, Concat, Page;
    if offset < |all| {
      PagesFromConcat(all, n, offset + n);
      FirstPage(all, n, offset);
      ConcatUnfold(Page(all, offset, n), PagesFrom(all, n, offset + n));
      TakeThenDrop(n, offset, all);
    } else {
      NoPages(all, n, offset);
    }
  }

  lemma FirstPage(all: seq<Job>, n: int, offset: nat)
    requires n > 0 && offset < |all|
    ensures PagesFrom(all, n, offset) == [Page(all, offset, n)] + PagesFrom(all, n, offset + n)
    ensures Page(all, offset, n) == Take(n, Drop(offset, all))
  {
  }

  lemma NoPages(all: seq<Job>, n: int, offset: nat)
    requires n > 0 && offset >= |all|
    ensures Concat(PagesFrom(all, n, offset)) == Drop(offset, all)
  {
  }

  lemma ConcatUnfold<T>(first: seq<T>, rest: seq<seq<T>>)
    ensures Concat([first] + rest) == first + Concat(rest)
  {
    assert ([first] + rest)[1..] == rest;
  }

  lemma TakeThenDrop<T>(n: int, offset: nat, all: seq<T>)
    requires n > 0
    ensures Take(n, Drop(offset, all)) + Drop(offset + n, all) == Drop(offset, all)
  {
  }

  /** Paging is a partition: the pages of any size, one after another, are the whole listing. */
  lemma PagesPartition(m: Store, f: JobFilter, n: int)
    requires n > 0
    ensures Concat(PagesFrom(ListAll(m, f), n, 0)) == ListAll(m, f)
  {
    PagesFromConcat(ListAll(m, f), n, 0);
  }

  lemma ListOrderAt(m: Store, f: JobFilter, i: nat)
    requires i < |ListOrder(m, f)|
    ensures var k := ListOrder(m, f)[i]; k.at == -m[k.id].createdAt && Matches(f, m[k.id])
  {
    assert ListOrder(m, f)[i] in Elems(ListOrder(m, f));
  }

  lemma ListOrderCovers(m: Store, f: JobFilter, id: string)
    requires id in m && Matches(f, m[id])
    ensures Key(-m[id].createdAt, id) in ListOrder(m, f)
  {
    assert Key(-m[id].createdAt, id) in Elems(ListOrder(m, f));
  }

  lemma OrderAscends(m: Store, f: JobFilter)
    ensures Ascending(ListOrder(m, f))
  {
    hide ListKeys;
  }

  lemma ListingFacts(m: Store, f: JobFilter)
    requires Keyed(m)
    ensures forall id :: id in m && Matches(f, m[id]) ==> m[id] in ListAll(m, f)
    ensures forall j :: j in ListAll(m, f) ==> Get(m, j.id) == Some(j) && Matches(f, j)
    ensures forall i, j :: 0 <= i < j < |ListAll(m, f)| ==> ListedBefore(ListAll(m, f)[i], ListAll(m, f)[j])
  {
    hide ListOrder, Matches, ListKeys;
    var ks, all := ListOrder(m, f), ListAll(m, f);
    OrderAscends(m, f);
    forall i | 0 <= i < |all| ensures ks[i].at == -all[i].createdAt && ks[i].id == all[i].id && Matches(f, all[i]) {
      ListOrderAt(m, f, i);
      assert ks[i] in ks;
    }
    forall id | id in m && Matches(f, m[id]) ensures m[id] in all {
      ListOrderCovers(m, f, id);
      var i :| 0 <= i < |ks| && ks[i] == Key(-m[id].createdAt, id);
      assert all[i] == m[id];
    }
  }

  /** The listing holds exactly the stored jobs the filter's fields ask for, each once, newest first and by id among
      equals. */
  lemma ListingIsOrdered(m: Store, f: JobFilter)
    requires Keyed(m)
    ensures forall id :: id in m ==> (m[id] in ListAll(m, f) <==> Wanted(f, m[id]))
    ensures forall j :: j in ListAll(m, f) ==> Get(m, j.id) == Some(j)
    ensures forall i, j :: 0 <= i < j < |ListAll(m, f)| ==> ListedBefore(ListAll(m, f)[i], ListAll(m, f)[j])
  {
    hide ListAll, Matches, Wanted, ListedBefore;
    ListingFacts(m, f);
    forall id | id in m
      ensures m[id] in ListAll(m, f) <==> Wanted(f, m[id])
    {
      MatchesIff(f, m[id]);
    }
  }

  ghost predicate ListedBefore(a: Job, b: Job) {
    a.createdAt > b.createdAt || (a.createdAt == b.createdAt && StrLt(a.id, b.id))
  }

  // ---------------------------------------------------------------------------------------------
  // The store object

  /** One heap cell per stored job; its id never changes. */
  class JobRecord {
    const id: string
    var job: Job

    constructor (j: Job)
      ensures job == j && id == j.id
    {
      job := j;
      id := j.id;
    }

    predicate Expired(cutoff: int)
      reads this
    {
      job.status.IsTerminal() && job.completedAt.Some? && job.completedAt.value < cutoff
    }
  }

  function EligibleAmong(m: Store, done: set<string>, now: int, f: ClaimFilter): set<Key> {
    set id | id in done && id in m && CanClaim(m[id], now, f) :: KeyAt(m, id)
  }

  lemma EligibleGrows(m: Store, done: set<string>, id: string, now: int, f: ClaimFilter)
    requires id in m && id !in done
    ensures KeyAt(m, id) !in EligibleAmong(m, done, now, f)
    ensures EligibleAmong(m, done + {id}, now, f) ==
            EligibleAmong(m, done, now, f) + if CanClaim(m[id], now, f) then {KeyAt(m, id)} else {}
  {
  }

  function AddKey(ks: seq<Key>, k: Key): (r: seq<Key>)
    requires Distinct(ks) && k !in Elems(ks)
    ensures Distinct(r) && Elems(r) == Elems(ks) + {k}
  {
    ks + [k]
  }

  /** Orders the candidates and cuts them off at the limit. */
  method Prefer(candidates: seq<Key>, limit: int) returns (chosen: seq<Key>)
    requires Distinct(candidates)
    ensures chosen == Take(limit, Sort(Elems(candidates)))
  {
    chosen := SortKeys(candidates);
    if |chosen| > limit {
      chosen := if limit < 0 then [] else chosen[..limit];
    }
  }

  /** The slicing `List` does on the sorted matches. */
  method Window(matches: seq<Job>, offset: int, limit: int) returns (page: seq<Job>)
    ensures page == Page(matches, offset, limit)
  {
    var from := if offset < 0 then 0 else offset;
    if from >= |matches| {
      return [];
    }
    page := matches[from..];
    if limit <= 0 || limit > |page| {
      return page;
    }
    page := page[..limit];
  }

  lemma DeleteOneMore(m: Store, doomed: set<string>, todo: set<string>, id: string)
    requires id in todo
    ensures id in doomed ==> m - (doomed - (todo - {id})) == m - (doomed - todo) - {id}
    ensures id in doomed ==> |doomed - (todo - {id})| == |doomed - todo| + 1
    ensures id !in doomed ==> doomed - (todo - {id}) == doomed - todo
  {
    if id in doomed {
      assert doomed - (todo - {id}) == (doomed - todo) + {id};
    }
  }

  ghost function PromoteIn(m: Store, done: set<string>, now: int): Store {
    map id | id in m :: if id in done then Promote(m[id], now) else m[id]
  }

  lemma PromoteOneMore(m: Store, done: set<string>, id: string, now: int)
    requires id in m && id !in done
    ensures PromoteIn(m, done + {id}, now) == PromoteIn(m, done, now)[id := Promote(m[id], now)]
    ensures PromoteIn(m, done, now)[id] == m[id]
  {
  }

  ghost predicate Startable(m: Store, chosen: seq<Key>, now: int) {
    forall k :: k in chosen ==> k.id in m && k == KeyAt(m, k.id) && Due(m[k.id], now)
  }

  lemma StartOneMore(m: Store, chosen: seq<Key>, n: nat, now: int)
    requires n < |chosen| && Ascending(chosen) && Startable(m, chosen, now) && Keyed(m)
    ensures chosen[n].id in m
    ensures chosen[n].id in AfterClaim(m, chosen[..n], now) && Due(m[chosen[n].id], now)
    ensures AfterClaim(m, chosen[..n], now)[chosen[n].id] == Promote(m[chosen[n].id], now)
    ensures AfterClaim(m, chosen[..n + 1], now) ==
            AfterClaim(m, chosen[..n], now)[chosen[n].id := StartAttempt(Promote(m[chosen[n].id], now), now)]
  {
    var key := chosen[n];
    assert key in chosen;
    assert key !in chosen[..n] by {
      LtTotal(key, key);
    }
    assert chosen[..n + 1] == chosen[..n] + [key];
  }

  lemma PromotedIsQueued(j: Job, now: int)
    requires Due(j, now)
    ensures Promote(j, now).status.Queued? && Promote(j, now).id == j.id
    ensures StartAttempt(Promote(j, now), now) == StartAttempt(j, now) && StartAttempt(j, now).id == j.id
  {
  }

  ghost predicate Distinct(s: seq<Key>) {
    forall i, j :: 0 <= i < j < |s| ==> s[i] != s[j]
  }

  class MemoryStore {
    var jobs: map<string, JobRecord>
    ghost var records: set<JobRecord>

    /** Every record sits under its own id, so no two ids share a record. */
    ghost predicate Valid()
      reads this, records
    {
      forall id :: id in jobs ==> jobs[id] in records && jobs[id].id == id && jobs[id].job.id == id
    }

    ghost function View(): Store
      requires Valid()
      reads this, records
    {
      map id | id in jobs :: jobs[id].job
    }

    constructor ()
      ensures Valid() && View() == map[]
    {
      jobs := map[];
      records := {};
    }

    method Create(job: Job) returns (reply: Reply)
      requires Valid()
      modifies this
      ensures Valid() && fresh(records - old(records))
      ensures (View(), reply) == Step(old(View()), Op.Create(job))
    {
      if job.id in jobs {
        return Refused(AlreadyExists);
      }
      var record := new JobRecord(job);
      jobs := jobs[job.id := record];
      records := records + {record};
      reply := Stored(job);
      assert View() == old(View())[job.id := job];
    }

    /** An assignment through the pointer stored under `id`. */
    method Write(id: string, j: Job)
      requires Valid() && id in jobs && j.id == id
      modifies records
      ensures Valid() && View() == old(View())[id := j]
    {
      jobs[id].job := j;
    }

    method Change(id: string, u: Update) returns (reply: Reply)
      requires Valid()
      modifies records
      ensures Valid()
      ensures (View(), reply) == Step(old(View()), Op.Change(id, u))
    {
      if id !in jobs {
        return Refused(NotFound);
      }
      match Apply(u, jobs[id].job)
      case Err(e) =>
        reply := Refused(e);
      case Ok(j) =>
        Write(id, j);
        reply := Stored(j);
    }

    /** Marks due scheduled jobs as queued and lists the keys of the claimable ones. */
    method Scan(now: int, f: ClaimFilter) returns (candidates: seq<Key>)
      requires Valid()
      modifies records
      ensures Valid()
      ensures View() == PromoteIn(old(View()), jobs.Keys, now)
      ensures Elems(candidates) == Eligible(old(View()), now, f)
      ensures Distinct(candidates)
    {
      ghost var m, done := View(), {};
      candidates := [];
      var todo := jobs.Keys;
      while todo != {}
        invariant Valid() && done + todo == jobs.Keys && done !! todo
        invariant View() == PromoteIn(m, done, now)
        invariant Elems(candidates) == EligibleAmong(m, done, now, f)
        invariant Distinct(candidates)
      {
        var id :| id in todo;
        EligibleGrows(m, done, id, now, f);
        PromoteOneMore(m, done, id, now);
        var claimable := Visit(id, now, f);
        if claimable {
          candidates := AddKey(candidates, KeyOf(jobs[id].job));
        }
        todo, done := todo - {id}, done + {id};
      }
    }

    /** Promotes one job when it is due and reports whether the filter lets it be claimed. */
    method Visit(id: string, now: int, f: ClaimFilter) returns (claimable: bool)
      requires Valid() && id in jobs
      modifies records
      ensures Valid() && View() == old(View())[id := Promote(old(View())[id], now)]
      ensures claimable == CanClaim(old(View())[id], now, f)
    {
      var job := jobs[id].job;
      assert View() == View()[id := job];
      if job.status.Scheduled? && job.availableAt <= now {
        job := job.(status := Queued, updatedAt := now);
        Write(id, job);
      }
      claimable := job.status.Queued? && job.availableAt <= now && MemoryAllows(f, job.queue, job.kind);
    }

    method ClaimReady(now: int, limit: int, f: ClaimFilter) returns (claimed: seq<Job>)
      requires Valid()
      modifies records
      ensures Valid()
      ensures (View(), claimed) == ClaimResult(old(View()), now, limit, f)
    {
      if limit <= 0 {
        return [];
      }
      ghost var m := View();
      var candidates := Scan(now, f);
      var chosen := Prefer(candidates, limit);
      assert PromoteIn(m, jobs.Keys, now) == AfterClaim(m, [], now);
      assert chosen == Chosen(m, now, limit, f);
      ChosenFacts(m, now, limit, f);
      claimed := Start(chosen, now, m);
    }

    /** Starts an attempt of each chosen job that is still queued. */
    method Start(chosen: seq<Key>, now: int, ghost m: Store) returns (claimed: seq<Job>)
      requires Valid() && View() == AfterClaim(m, [], now)
      requires Keyed(m) && Ascending(chosen) && Startable(m, chosen, now)
      modifies records
      ensures Valid()
      ensures View() == AfterClaim(m, chosen, now)
      ensures claimed == Started(m, chosen, now)
    {
      hide AfterClaim, Ascending, StartAttempt, Promote, HasBegun, Due, Keyed;
      claimed := [];
      for n := 0 to |chosen|
        invariant Valid() && View() == AfterClaim(m, chosen[..n], now)
        invariant claimed == Started(m, chosen, now)[..n]
      {
        StartOneMore(m, chosen, n, now);
        PromotedIsQueued(m[chosen[n].id], now);
        var started := StartQueued(chosen[n].id, now);
        if started.Some? {
          claimed := claimed + [started.value];
        }
      }
      assert chosen[..|chosen|] == chosen;
    }

    /** Starts an attempt of one job if it is queued. */
    method StartQueued(id: string, now: int) returns (started: Option<Job>)
      requires Valid()
      modifies records
      ensures Valid()
      ensures var before := old(View());
              if id in before && before[id].status.Queued?
              then started == Some(StartAttempt(before[id], now)) && View() == before[id := started.value]
              else started == None && View() == before
    {
      started := None;
      if id in jobs && jobs[id].job.status.Queued? {
        var job := StartAttempt(jobs[id].job, now);
        Write(id, job);
        started := Some(job);
      }
    }

    method Delete(id: string)
      requires Valid()
      modifies this`jobs
      ensures Valid() && View() == old(View()) - {id}
      ensures jobs == old(jobs) - {id}
    {
      jobs := jobs - {id};
    }

    method PruneTerminalBefore(cutoff: int) returns (removed: nat)
      requires Valid()
      modifies this`jobs
      ensures Valid()
      ensures (View(), removed) == PruneResult(old(View()), cutoff)
    {
      ghost var m, doomed := View(), Prunable(View(), cutoff);
      removed := 0;
      var todo := jobs.Keys;
      while todo != {}
        invariant Valid() && todo <= jobs.Keys
        invariant View() == m - (doomed - todo)
        invariant removed == |doomed - todo|
      {
        var id :| id in todo;
        DeleteOneMore(m, doomed, todo, id);
        assert jobs[id].job == View()[id] == m[id];
        if jobs[id].Expired(cutoff) {
          Delete(id);
          removed := removed + 1;
        }
        todo := todo - {id};
      }
    }

    /** The sort keys of the jobs a list filter matches, in any order. */
    method MatchingKeys(f: JobFilter, ghost m: Store) returns (keys: seq<Key>)
      requires Valid() && m == View()
      ensures Elems(keys) == ListKeys(m, f)
      ensures Distinct(keys)
    {
      keys := [];
      var todo := jobs.Keys;
      while todo != {}
        invariant todo <= jobs.Keys
        invariant forall k :: k in keys <==>
                  k.id in m && k.id !in todo && Matches(f, m[k.id]) && k.at == -m[k.id].createdAt
        invariant Distinct(keys)
      {
        var id :| id in todo;
        var job := jobs[id].job;
        if Matches(f, job) {
          assert Key(-job.createdAt, job.id) !in Elems(keys);
          keys := AddKey(keys, Key(-job.createdAt, job.id));
        }
        todo := todo - {id};
      }
      assert forall k :: k in keys <==> k in ListKeys(m, f);
    }

    /** Copies the jobs at the given keys. */
    method Load(keys: seq<Key>, ghost m: Store) returns (loaded: seq<Job>)
      requires Valid() && m == View() && forall k :: k in keys ==> k.id in m
      ensures loaded == JobsAt(m, keys)
    {
      loaded := [];
      for n := 0 to |keys|
        invariant |loaded| == n
        invariant forall i :: 0 <= i < n ==> keys[i].id in m && loaded[i] == m[keys[i].id]
      {
        assert keys[n] in keys;
        loaded := loaded + [jobs[keys[n].id].job];
      }
    }

    method List(f: JobFilter) returns (page: seq<Job>)
      requires Valid()
      ensures page == Page(ListAll(View(), f), f.offset, f.limit)
    {
      hide Page, ListKeys, Sort, Elems;
      ghost var m := View();
      var keys := MatchingKeys(f, m);
      keys := SortKeys(keys);
      SortedKeys(m, f);
      var matches := Load(keys, m);
      page := Window(matches, f.offset, f.limit);
    }
  }
}

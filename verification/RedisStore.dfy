/** The Redis job store: keyed jobs, three sorted-set indexes, two atomic scripts and the pipelines
    of `Create` and the single-job updates.

    A sorted set is the map from member to score; its range queries list members by score, then
    member, which is the order of module `Order`.
 */
module RedisStores {
  import opened Order
  import opened Jobs
  import opened Wrappers
  import opened MemoryStores

  datatype Redis = Redis(
    jobs: Store, available: map<string, int>, terminal: map<string, int>, created: map<string, int>)

  const EMPTY := Redis(map[], map[], map[], map[])

  // ---------------------------------------------------------------------------------------------
  // Indexes

  function AvailableOf(jobs: Store): map<string, int> {
    map id | id in jobs && jobs[id].status.IsPending() :: jobs[id].availableAt
  }

  predicate Retired(j: Job) {
    j.status.IsTerminal() && j.completedAt.Some?
  }

  function TerminalOf(jobs: Store): map<string, int> {
    map id | id in jobs && Retired(jobs[id]) :: jobs[id].completedAt.value
  }

  function CreatedOf(jobs: Store): map<string, int> {
    map id | id in jobs :: jobs[id].createdAt
  }

  /** The indexes say exactly what the jobs say. */
  ghost predicate IndexesAgree(r: Redis) {
    && Keyed(r.jobs)
    && r.available == AvailableOf(r.jobs)
    && r.terminal == TerminalOf(r.jobs)
    && r.created == CreatedOf(r.jobs)
  }

  /** The queued commands of `syncIndexes`: take the job out of both indexes, then put it back where its
      status says. */
  function SyncIndexes(r: Redis, j: Job): Redis {
    var available := r.available - {j.id};
    var terminal := r.terminal - {j.id};
    r.(available := if j.status.IsPending() then available[j.id := j.availableAt] else available,
       terminal := if Retired(j) then terminal[j.id := j.completedAt.value] else terminal)
  }

  /** One EXEC of an update: SET the job, synchronise the indexes. */
  function PutJob(r: Redis, j: Job): Redis {
    SyncIndexes(r.(jobs := r.jobs[j.id := j]), j)
  }

  /** One EXEC of a create: SET, ZADD created, synchronise the indexes. */
  function AddJob(r: Redis, j: Job): Redis {
    SyncIndexes(r.(jobs := r.jobs[j.id := j], created := r.created[j.id := j.createdAt]), j)
  }

  // ---------------------------------------------------------------------------------------------
  // The claim script

  function ScoredUpTo(z: map<string, int>, max: int): set<Key> {
    set id | id in z && z[id] <= max :: Key(z[id], id)
  }

  /** ZRANGEBYSCORE -inf max. */
  ghost function RangeByScore(z: map<string, int>, max: int): seq<Key> {
    Sort(ScoredUpTo(z, max))
  }

  function IdSet(ks: seq<Key>): (r: set<string>)
    ensures forall k :: k in ks ==> k.id in r
  {
    set k | k in ks :: k.id
  }

  predicate PendingIn(jobs: Store, id: string) {
    id in jobs && jobs[id].status.IsPending()
  }

  predicate Takes(jobs: Store, f: ClaimFilter, id: string) {
    PendingIn(jobs, id) && RedisAllows(f, jobs[id].queue, jobs[id].kind)
  }

  /** The index entries whose job is pending and passes the filter. */
  function Takable(r: Redis, f: ClaimFilter): set<Key> {
    set id | id in r.available && Takes(r.jobs, f, id) :: Key(r.available[id], id)
  }

  /** The ids among `ks` whose job the script starts. */
  function TakenIds(jobs: Store, ks: seq<Key>, f: ClaimFilter): set<string> {
    set k | k in ks && Takes(jobs, f, k.id) :: k.id
  }

  /** The ids among `ks` that leave the available index: started ones and those without a pending job. */
  function DroppedIds(jobs: Store, ks: seq<Key>, f: ClaimFilter): set<string> {
    set k | k in ks && (Takes(jobs, f, k.id) || !PendingIn(jobs, k.id)) :: k.id
  }

  function StartIn(jobs: Store, ids: set<string>, now: int): Store {
    map id | id in jobs :: if id in ids then StartAttempt(jobs[id], now) else jobs[id]
  }

  /** What the script's loop has done after visiting `ks`. */
  function ClaimOver(r: Redis, ks: seq<Key>, now: int, f: ClaimFilter): Redis {
    r.(jobs := StartIn(r.jobs, TakenIds(r.jobs, ks, f), now),
       available := r.available - DroppedIds(r.jobs, ks, f))
  }

  ghost function ScanOf(r: Redis, now: int, limit: int): seq<Key> {
    Take(limit, RangeByScore(r.available, now))
  }

  ghost function TakenBy(r: Redis, now: int, limit: int, f: ClaimFilter): (taken: seq<Key>)
    ensures forall k :: k in taken ==>
              k.id in r.jobs && k.id in r.available && Takes(r.jobs, f, k.id) && k == Key(r.available[k.id], k.id)
  {
    var taken := Keep(ScanOf(r, now, limit), Takable(r, f));
    assert forall k :: k in taken ==> k in Elems(taken);
    taken
  }

  ghost function ClaimScript(r: Redis, now: int, limit: int, f: ClaimFilter): (Redis, seq<Job>) {
    if limit <= 0 then (r, [])
    else (ClaimOver(r, ScanOf(r, now, limit), now, f), Started(r.jobs, TakenBy(r, now, limit, f), now))
  }

  // ---------------------------------------------------------------------------------------------
  // The prune script

  /** Deletes the ids, wherever they appear, without looking at any status. */
  function Erase(r: Redis, ids: set<string>): Redis {
    Redis(r.jobs - ids, r.available - ids, r.terminal - ids, r.created - ids)
  }

  function RetiredUpTo(r: Redis, cutoff: int): set<string> {
    set id | id in r.terminal && r.terminal[id] <= cutoff
  }

  function PruneScript(r: Redis, cutoff: int): (Redis, nat) {
    (Erase(r, RetiredUpTo(r, cutoff)), |RetiredUpTo(r, cutoff)|)
  }

  // ---------------------------------------------------------------------------------------------
  // Whole calls

  ghost function RedisStep(r: Redis, op: Op): (Redis, Reply) {
    match op
    case Create(job) =>
      if job.id in r.jobs then (r, Refused(AlreadyExists)) else (AddJob(r, job), Stored(job))
    case Change(id, u) =>
      if id !in r.jobs then (r, Refused(NotFound))
      else (match Apply(u, r.jobs[id])
            case Ok(j) => (PutJob(r, j), Stored(j))
            case Err(e) => (r, Refused(e)))
    case Claim(now, limit, f) =>
      var (r', claimed) := ClaimScript(r, now, limit, f);
      (r', Claimed(claimed))
    case Prune(cutoff) =>
      var (r', removed) := PruneScript(r, cutoff);
      (r', Removed(removed))
  }

  ghost function RedisRun(r: Redis, ops: seq<Op>): Redis
    decreases |ops|
  {
    if ops == [] then r else RedisStep(RedisRun(r, ops[..|ops| - 1]), ops[|ops| - 1]).0
  }

  /** The replies of a run, call by call. */
  ghost function Replies(r: Redis, ops: seq<Op>): (replies: seq<Reply>)
    ensures |replies| == |ops|
    decreases |ops|
  {
    if ops == [] then []
    else Replies(r, ops[..|ops| - 1]) + [RedisStep(RedisRun(r, ops[..|ops| - 1]), ops[|ops| - 1]).1]
  }

  /** Unfolds a run by one call. */
  lemma OneMoreCall(r: Redis, before: seq<Op>, op: Op)
    ensures RedisRun(r, before + [op]) == RedisStep(RedisRun(r, before), op).0
    ensures Replies(r, before + [op]) == Replies(r, before) + [RedisStep(RedisRun(r, before), op).1]
  {
    hide RedisStep;
    assert (before + [op])[..|before|] == before;
  }

  // ---------------------------------------------------------------------------------------------
  // The indexes agree with the jobs in every reachable state

  lemma EmptyAgrees()
    ensures IndexesAgree(EMPTY)
  {
    assert AvailableOf(map[]) == map[] && TerminalOf(map[]) == map[] && CreatedOf(map[]) == map[];
  }

  lemma AvailableAfterSet(jobs: Store, j: Job)
    ensures AvailableOf(jobs[j.id := j]) ==
            if j.status.IsPending() then (AvailableOf(jobs) - {j.id})[j.id := j.availableAt]
            else AvailableOf(jobs) - {j.id}
  {
  }

  lemma TerminalAfterSet(jobs: Store, j: Job)
    ensures TerminalOf(jobs[j.id := j]) ==
            if Retired(j) then (TerminalOf(jobs) - {j.id})[j.id := j.completedAt.value] else TerminalOf(jobs) - {j.id}
  {
  }

  lemma CreatedAfterSet(jobs: Store, j: Job)
    ensures CreatedOf(jobs[j.id := j]) == CreatedOf(jobs)[j.id := j.createdAt]
  {
  }

  lemma AddJobAgrees(r: Redis, j: Job)
    requires IndexesAgree(r)
    ensures IndexesAgree(AddJob(r, j))
  {
    AvailableAfterSet(r.jobs, j);
    TerminalAfterSet(r.jobs, j);
    CreatedAfterSet(r.jobs, j);
  }

  lemma PutJobAgrees(r: Redis, j: Job)
    requires IndexesAgree(r) && j.id in r.jobs && j.createdAt == r.jobs[j.id].createdAt
    ensures IndexesAgree(PutJob(r, j))
  {
    AvailableAfterSet(r.jobs, j);
    TerminalAfterSet(r.jobs, j);
    CreatedAfterSet(r.jobs, j);
    assert CreatedOf(r.jobs)[j.id := j.createdAt] == CreatedOf(r.jobs);
  }

  lemma ClaimOverAgrees(r: Redis, ks: seq<Key>, now: int, f: ClaimFilter)
    requires IndexesAgree(r)
    ensures IndexesAgree(ClaimOver(r, ks, now, f))
  {
    var taken, dropped := TakenIds(r.jobs, ks, f), DroppedIds(r.jobs, ks, f);
    assert forall id :: id in taken ==> id in dropped && PendingIn(r.jobs, id);
    assert forall id :: id in dropped && id !in taken ==> !PendingIn(r.jobs, id);
    IndexesAfterStart(r.jobs, taken, dropped, now);
  }

  lemma IndexesAfterStart(jobs: Store, taken: set<string>, dropped: set<string>, now: int)
    requires forall id :: id in taken ==> id in dropped && PendingIn(jobs, id)
    requires forall id :: id in dropped && id !in taken ==> !PendingIn(jobs, id)
    ensures AvailableOf(StartIn(jobs, taken, now)) == AvailableOf(jobs) - dropped
    ensures TerminalOf(StartIn(jobs, taken, now)) == TerminalOf(jobs)
    ensures CreatedOf(StartIn(jobs, taken, now)) == CreatedOf(jobs)
  {
  }

  lemma EraseAgrees(r: Redis, ids: set<string>)
    requires IndexesAgree(r)
    ensures IndexesAgree(Erase(r, ids))
  {
    var r' := Erase(r, ids);
    assert r'.available == AvailableOf(r'.jobs);
    assert r'.terminal == TerminalOf(r'.jobs);
    assert r'.created == CreatedOf(r'.jobs);
  }

  lemma StepKeepsIndexes(r: Redis, op: Op)
    requires IndexesAgree(r)
    ensures IndexesAgree(RedisStep(r, op).0)
  {
    match op
    case Create(job) =>
      if job.id !in r.jobs {
        AddJobAgrees(r, job);
      }
    case Change(id, u) =>
      if id in r.jobs && Apply(u, r.jobs[id]).Ok? {
        PutJobAgrees(r, Apply(u, r.jobs[id]).value);
      }
    case Claim(now, limit, f) =>
      ClaimOverAgrees(r, ScanOf(r, now, limit), now, f);
    case Prune(cutoff) =>
      EraseAgrees(r, RetiredUpTo(r, cutoff));
  }

  /** After any sequence of calls, with any jobs created, the three indexes are exactly what the stored
      jobs determine. */
  lemma {:induction false} ReachableIndexesAgree(r: Redis, ops: seq<Op>)
    requires IndexesAgree(r)
    ensures IndexesAgree(RedisRun(r, ops))
    decreases |ops|
  {
    if ops != [] {
      ReachableIndexesAgree(r, ops[..|ops| - 1]);
      StepKeepsIndexes(RedisRun(r, ops[..|ops| - 1]), ops[|ops| - 1]);
    }
  }

  /** Hence the prune script, which reads no status, deletes terminal jobs only, and all of those that
      completed up to and including the cutoff. */
  lemma PruneDeletesTerminalOnly(ops: seq<Op>, cutoff: int)
    ensures var r := RedisRun(EMPTY, ops);
            var r' := PruneScript(r, cutoff).0;
            && PruneContract(r.jobs, r'.jobs)
            && (forall id :: id in r.jobs ==>
                  (id !in r'.jobs <==> Retired(r.jobs[id]) && r.jobs[id].completedAt.value <= cutoff))
  {
    EmptyAgrees();
    ReachableIndexesAgree(EMPTY, ops);
  }

  lemma {:induction false} ScanFacts(r: Redis, now: int, limit: int, f: ClaimFilter)
    requires limit > 0
    ensures Ascending(TakenBy(r, now, limit, f)) && |TakenBy(r, now, limit, f)| <= limit
    ensures forall k :: k in TakenBy(r, now, limit, f) ==> k.at <= now
  {
    var all := RangeByScore(r.available, now);
    var scan := ScanOf(r, now, limit);
    KeepAscending(scan, Takable(r, f));
    forall k | k in TakenBy(r, now, limit, f) ensures k.at <= now {
      assert k in Elems(TakenBy(r, now, limit, f));
      assert k in Elems(scan);
      assert k in Elems(all);
    }
  }

  lemma TakenIffKept(r: Redis, now: int, limit: int, f: ClaimFilter, id: string)
    requires IndexesAgree(r) && id in r.jobs
    ensures id in TakenIds(r.jobs, ScanOf(r, now, limit), f) <==> KeyAt(r.jobs, id) in TakenBy(r, now, limit, f)
  {
    var scan, taken := ScanOf(r, now, limit), TakenBy(r, now, limit, f);
    assert KeyAt(r.jobs, id) in taken <==> KeyAt(r.jobs, id) in Elems(taken);
    assert Elems(scan) <= Elems(RangeByScore(r.available, now));
    if id in TakenIds(r.jobs, scan, f) {
      var k :| k in scan && k.id == id;
      assert k in Elems(scan);
    }
  }

  /** The claim script honours the same contract as the in-memory store. */
  lemma ClaimScriptMeetsContract(r: Redis, now: int, limit: int, f: ClaimFilter)
    requires IndexesAgree(r)
    ensures ClaimContract(r.jobs, now, limit, ClaimScript(r, now, limit, f).0.jobs, ClaimScript(r, now, limit, f).1)
  {
    if limit > 0 {
      var taken := TakenBy(r, now, limit, f);
      ScanFacts(r, now, limit, f);
      assert Startable(r.jobs, taken, now);
      var jobs' := ClaimScript(r, now, limit, f).0.jobs;
      forall id | id in r.jobs
        ensures jobs'[id] == if KeyAt(r.jobs, id) in taken then StartAttempt(r.jobs[id], now) else r.jobs[id]
      {
        TakenIffKept(r, now, limit, f, id);
      }
      ChosenMeetContract(r.jobs, now, limit, taken, jobs');
    }
  }

  /** Every call of the Redis store honours the contract of calls. */
  lemma RedisMeetsContract(r: Redis, op: Op)
    requires IndexesAgree(r)
    ensures CallContract(r.jobs, op, RedisStep(r, op).1, RedisStep(r, op).0.jobs)
  {
    hide ClaimContract, PruneContract, ClaimScript, PruneScript, AvailableOf, TerminalOf, CreatedOf, Apply;
    match op
    case Create(_) =>
    case Change(_, _) =>
    case Claim(now, limit, f) =>
      ClaimScriptMeetsContract(r, now, limit, f);
    case Prune(cutoff) =>
      PruneScriptMeetsContract(r, cutoff);
  }

  lemma RetiredAreTerminal(r: Redis, cutoff: int)
    requires IndexesAgree(r)
    ensures forall id :: id in RetiredUpTo(r, cutoff) ==> id in r.jobs && r.jobs[id].status.IsTerminal()
  {
    hide AvailableOf, CreatedOf, Keyed;
    assert forall id :: id in RetiredUpTo(r, cutoff) ==> id in TerminalOf(r.jobs);
  }

  lemma PruneScriptMeetsContract(r: Redis, cutoff: int)
    requires IndexesAgree(r)
    ensures PruneContract(r.jobs, PruneScript(r, cutoff).0.jobs)
    ensures PruneScript(r, cutoff).1 + |PruneScript(r, cutoff).0.jobs| == |r.jobs|
  {
    RetiredAreTerminal(r, cutoff);
    hide PruneContract, RetiredUpTo, IndexesAgree;
    RemovalMeetsContract(r.jobs, RetiredUpTo(r, cutoff));
  }

  // ---------------------------------------------------------------------------------------------
  // What the claim script takes, by the fields of the jobs

  /** The script's filter asks for the name: it is among the names, or there are none. */
  ghost predicate Listed(names: seq<string>, name: string) {
    |names| == 0 || exists i :: 0 <= i < |names| && names[i] == name
  }

  ghost predicate Ready(j: Job, now: int) {
    (j.status == Queued || j.status == Scheduled) && j.availableAt <= now
  }

  /** The ready jobs that come before the job `id`. */
  ghost function Ahead(m: Store, now: int, id: string): set<string>
    requires id in m
  {
    set x | x in m && Ready(m[x], now) && Sooner(m[x], m[id])
  }

  lemma TakeRank(n: nat, s: set<Key>, k: Key)
    ensures k in Take(n, Sort(s)) <==> k in s && |set x | x in s && Lt(x, k)| < n
  {
    hide Sort, Lt;
    var all := Sort(s);
    if k in Take(n, all) {
      assert k in Elems(Take(n, all)) && k in Elems(all);
    }
    if k in s {
      assert k in Elems(all);
      var i :| 0 <= i < |all| && all[i] == k;
      RankIs(s, i);
      InTake(n, all, i);
    }
  }

  lemma InTake(n: nat, all: seq<Key>, i: nat)
    requires Ascending(all) && i < |all|
    ensures all[i] in Take(n, all) <==> i < n
  {
    hide Ascending;
    if all[i] in Take(n, all) {
      var j :| 0 <= j < |Take(n, all)| && Take(n, all)[j] == all[i];
      AscendingDistinct(all, i, j);
    }
    assert i < n ==> i < |Take(n, all)| && Take(n, all)[i] == all[i];
  }

  lemma BelowIff(all: seq<Key>, i: nat, x: Key)
    requires Ascending(all) && i < |all|
    ensures x in all[..i] <==> x in all && Lt(x, all[i])
  {
    hide Lt;
    if x in all && Lt(x, all[i]) {
      var j :| 0 <= j < |all| && all[j] == x;
      LtTotal(all[i], all[j]);
      assert j < i;
      assert all[..i][j] == x;
    }
    if x in all[..i] {
      var j :| 0 <= j < i && all[..i][j] == x;
      assert all[j] == x;
    }
  }

  /** In a sorted set the position of a key is the number of keys below it. */
  lemma RankIs(s: set<Key>, i: nat)
    requires i < |Sort(s)|
    ensures |set x | x in s && Lt(x, Sort(s)[i])| == i
  {
    hide Sort, Lt;
    var all := Sort(s);
    forall x
      ensures x in s && Lt(x, all[i]) <==> x in Elems(all[..i])
    {
      BelowIff(all, i, x);
      assert x in Elems(all) <==> x in all;
    }
    assert (set x | x in s && Lt(x, all[i])) == Elems(all[..i]);
    assert Ascending(all[..i]);
    hide Ascending;
    DistinctCount(all[..i]);
  }

  lemma {:induction false} DistinctCount(ks: seq<Key>)
    requires Ascending(ks)
    ensures |Elems(ks)| == |ks|
  {
    if ks != [] {
      TailElems(ks);
      assert ks[0] in Elems(ks);
      DistinctCount(ks[1..]);
    }
  }

  lemma ScoredIff(r: Redis, now: int, k: Key)
    requires IndexesAgree(r)
    ensures k in ScoredUpTo(r.available, now) <==>
            k.id in r.jobs && Ready(r.jobs[k.id], now) && k == KeyAt(r.jobs, k.id)
  {
    hide TerminalOf, CreatedOf;
    if k.id in r.jobs && Ready(r.jobs[k.id], now) && k == KeyAt(r.jobs, k.id) {
      assert k.id in r.available && Key(r.available[k.id], k.id) == k;
    }
  }

  lemma AheadCount(r: Redis, now: int, id: string)
    requires IndexesAgree(r) && id in r.jobs
    ensures |set x | x in ScoredUpTo(r.available, now) && Lt(x, KeyAt(r.jobs, id))| == |Ahead(r.jobs, now, id)|
  {
    hide ScoredUpTo, Ready, Lt, Sooner;
    var ids := Ahead(r.jobs, now, id);
    var keys := set x | x in ScoredUpTo(r.available, now) && Lt(x, KeyAt(r.jobs, id));
    var mapped := set x | x in ids :: KeyAt(r.jobs, x);
    KeysCount(r.jobs, ids);
    forall k
      ensures k in keys <==> k in mapped
    {
      ScoredIff(r, now, k);
      if k.id in r.jobs {
        LtIsSooner(r.jobs[k.id], r.jobs[id]);
      }
      AheadKey(r, now, id, k);
    }
    assert keys == mapped;
  }

  lemma AheadKey(r: Redis, now: int, id: string, k: Key)
    requires Keyed(r.jobs) && id in r.jobs
    ensures k in (set x | x in Ahead(r.jobs, now, id) :: KeyAt(r.jobs, x)) <==>
            k.id in Ahead(r.jobs, now, id) && k == KeyAt(r.jobs, k.id)
    ensures k.id in r.jobs ==> KeyOf(r.jobs[k.id]) == KeyAt(r.jobs, k.id)
  {
    hide Ready, Sooner;
  }

  /** The script claims a job exactly if it is ready, the filter asks for its queue and type, and fewer than `limit`
      ready jobs come before it, wanted or not. */
  lemma ClaimScriptTakes(r: Redis, now: int, limit: int, f: ClaimFilter, id: string)
    requires IndexesAgree(r) && limit > 0 && id in r.jobs
    ensures (exists i :: 0 <= i < |ClaimScript(r, now, limit, f).1| && ClaimScript(r, now, limit, f).1[i].id == id) <==>
            && Ready(r.jobs[id], now) && Listed(f.queues, r.jobs[id].queue) && Listed(f.kinds, r.jobs[id].kind)
            && |Ahead(r.jobs, now, id)| < limit
  {
    hide ClaimScript, TakenBy, ScoredUpTo, Ahead, IndexesAgree, Take, Lt;
    var key := KeyAt(r.jobs, id);
    TakeRank(limit, ScoredUpTo(r.available, now), key);
    ScoredIff(r, now, key);
    AheadCount(r, now, id);
    TakenKey(r, now, limit, f, id);
    ClaimedIds(r, now, limit, f, id);
  }

  lemma TakenKey(r: Redis, now: int, limit: int, f: ClaimFilter, id: string)
    requires IndexesAgree(r) && limit > 0 && id in r.jobs
    ensures KeyAt(r.jobs, id) in TakenBy(r, now, limit, f) <==>
            && KeyAt(r.jobs, id) in Take(limit, Sort(ScoredUpTo(r.available, now)))
            && PendingIn(r.jobs, id) && RedisAllows(f, r.jobs[id].queue, r.jobs[id].kind)
  {
    hide RedisAllows, TerminalOf, CreatedOf, Take, Sort, ScoredUpTo;
    var key, scan := KeyAt(r.jobs, id), ScanOf(r, now, limit);
    assert key in Elems(Keep(scan, Takable(r, f))) <==> key in Elems(scan) * Takable(r, f);
    TakableIff(r, f, id);
  }

  lemma TakableIff(r: Redis, f: ClaimFilter, id: string)
    requires IndexesAgree(r) && id in r.jobs
    ensures KeyAt(r.jobs, id) in Takable(r, f) <==>
            PendingIn(r.jobs, id) && RedisAllows(f, r.jobs[id].queue, r.jobs[id].kind)
  {
    hide RedisAllows, TerminalOf, CreatedOf;
    if PendingIn(r.jobs, id) {
      assert id in r.available && Key(r.available[id], id) == KeyAt(r.jobs, id);
    }
  }

  lemma ClaimedIds(r: Redis, now: int, limit: int, f: ClaimFilter, id: string)
    requires IndexesAgree(r) && limit > 0 && id in r.jobs
    ensures (exists i :: 0 <= i < |ClaimScript(r, now, limit, f).1| && ClaimScript(r, now, limit, f).1[i].id == id) <==>
            KeyAt(r.jobs, id) in TakenBy(r, now, limit, f)
  {
    var taken, claimed := TakenBy(r, now, limit, f), ClaimScript(r, now, limit, f).1;
    hide TakenBy;
    forall i | 0 <= i < |claimed|
      ensures claimed[i].id == taken[i].id && taken[i] == KeyAt(r.jobs, taken[i].id)
    {
      assert taken[i] in taken;
    }
    if KeyAt(r.jobs, id) in taken {
      var i :| 0 <= i < |taken| && taken[i] == KeyAt(r.jobs, id);
      assert claimed[i].id == id;
    }
  }

  // ---------------------------------------------------------------------------------------------
  // The server object: the scripts as their loops run

  ghost predicate FromIndex(z: map<string, int>, ks: seq<Key>) {
    Ascending(ks) && forall k :: k in ks ==> k.id in z && k == Key(z[k.id], k.id)
  }

  lemma TakeFromIndex(z: map<string, int>, ks: seq<Key>, limit: int)
    requires FromIndex(z, ks)
    ensures FromIndex(z, Take(limit, ks))
  {
    assert forall k :: k in Take(limit, ks) ==> k in ks;
  }

  lemma IdSetOneMore(ks: seq<Key>, n: nat, z: map<string, int>)
    requires n < |ks| && FromIndex(z, ks)
    ensures IdSet(ks[..n + 1]) == IdSet(ks[..n]) + {ks[n].id}
    ensures ks[n].id !in IdSet(ks[..n])
  {
    var key := ks[n];
    assert key in ks;
    assert ks[..n + 1] == ks[..n] + [key];
    if key.id in IdSet(ks[..n]) {
      var k :| k in ks[..n] && k.id == key.id;
      assert k in ks;
      LtTotal(key, key);
      assert false;
    }
  }

  lemma KeepOneMore(r: Redis, ks: seq<Key>, n: nat, f: ClaimFilter)
    requires n < |ks| && FromIndex(r.available, ks)
    ensures Keep(ks[..n + 1], Takable(r, f)) ==
            Keep(ks[..n], Takable(r, f)) + if Takes(r.jobs, f, ks[n].id) then [ks[n]] else []
  {
    var key := ks[n];
    assert key in ks;
    assert key in Takable(r, f) <==> Takes(r.jobs, f, key.id);
    assert ks[..n + 1] == ks[..n] + [key];
    KeepAppend(ks[..n], [key], Takable(r, f));
    assert [key][1..] == [];
    assert Keep([key], Takable(r, f)) == if key in Takable(r, f) then [key] else [];
  }

  lemma NothingVisited(r: Redis, now: int, f: ClaimFilter)
    ensures ClaimOver(r, [], now, f) == r
    ensures Keep([], Takable(r, f)) == []
  {
    assert StartIn(r.jobs, {}, now) == r.jobs;
    assert r.available - {} == r.available;
  }

  /** What one turn of the claim script's loop adds. */
  lemma ClaimOneMore(r: Redis, ks: seq<Key>, n: nat, now: int, f: ClaimFilter)
    requires n < |ks| && FromIndex(r.available, ks)
    ensures var before, after, id := ClaimOver(r, ks[..n], now, f), ClaimOver(r, ks[..n + 1], now, f), ks[n].id;
            && Get(before.jobs, id) == Get(r.jobs, id)
            && (Takes(r.jobs, f, id) ==>
                  after == before.(jobs := before.jobs[id := StartAttempt(r.jobs[id], now)],
                      available := before.available - {id}))
            && (!PendingIn(r.jobs, id) ==> after == before.(available := before.available - {id}))
            && (PendingIn(r.jobs, id) && !Takes(r.jobs, f, id) ==> after == before)
  {
    IdSetOneMore(ks, n, r.available);
    var id := ks[n].id;
    assert ks[..n + 1] == ks[..n] + [ks[n]];
    var taken, taken' := TakenIds(r.jobs, ks[..n], f), TakenIds(r.jobs, ks[..n + 1], f);
    assert taken <= IdSet(ks[..n]);
    assert taken' == if Takes(r.jobs, f, id) then taken + {id} else taken;
    var dropped, dropped' := DroppedIds(r.jobs, ks[..n], f), DroppedIds(r.jobs, ks[..n + 1], f);
    assert dropped' == if PendingIn(r.jobs, id) && !Takes(r.jobs, f, id) then dropped else dropped + {id};
    assert Takes(r.jobs, f, id) ==>
           StartIn(r.jobs, taken + {id}, now) == StartIn(r.jobs, taken, now)[id := StartAttempt(r.jobs[id], now)];
    assert r.available - (dropped + {id}) == r.available - dropped - {id};
  }

  /** A sorted-set range query, -inf up to `max`. */
  method RangeQuery(z: map<string, int>, max: int) returns (ks: seq<Key>)
    ensures ks == RangeByScore(z, max)
    ensures FromIndex(z, ks)
  {
    var keys: seq<Key> := [];
    var todo := z.Keys;
    while todo != {}
      invariant todo <= z.Keys
      invariant forall k :: k in keys <==> k.id in z && k.id !in todo && k == Key(z[k.id], k.id) && k.at <= max
      invariant Distinct(keys)
    {
      var id :| id in todo;
      if z[id] <= max {
        assert Key(z[id], id) !in Elems(keys);
        keys := AddKey(keys, Key(z[id], id));
      }
      todo := todo - {id};
    }
    assert Elems(keys) == ScoredUpTo(z, max);
    ks := SortKeys(keys);
    assert forall k :: k in ks ==> k in Elems(ks);
  }

  lemma EraseOneMore(r: Redis, ids: set<string>, id: string)
    ensures Erase(r, ids + {id}) == Erase(Erase(r, ids), {id})
  {
    assert r.jobs - (ids + {id}) == r.jobs - ids - {id};
    assert r.available - (ids + {id}) == r.available - ids - {id};
    assert r.terminal - (ids + {id}) == r.terminal - ids - {id};
    assert r.created - (ids + {id}) == r.created - ids - {id};
  }

  lemma RangeIds(z: map<string, int>, max: int, ks: seq<Key>)
    requires ks == RangeByScore(z, max)
    ensures IdSet(ks) == set id | id in z && z[id] <= max
  {
    forall id | id in z && z[id] <= max ensures id in IdSet(ks) {
      assert Key(z[id], id) in Elems(ks);
    }
    assert forall k :: k in ks ==> k in Elems(ks);
  }

  const BATCH: nat := 250

  function AllKeys(z: map<string, int>): set<Key> {
    set id | id in z :: Key(z[id], id)
  }

  function RevIds(ks: seq<Key>): seq<string> {
    seq(|ks|, i requires 0 <= i < |ks| => ks[|ks| - 1 - i].id)
  }

  /** The whole created index, last entry first. */
  ghost function RevIndex(z: map<string, int>): seq<string> {
    RevIds(Sort(AllKeys(z)))
  }

  function ListLimit(f: JobFilter): int {
    if f.limit <= 0 then 100 else f.limit
  }

  /** The stored jobs among `ids` that the filter matches, in that order. */
  function Hits(jobs: Store, ids: seq<string>, f: JobFilter): seq<Job> {
    if ids == [] then []
    else
      var id := ids[|ids| - 1];
      Hits(jobs, ids[..|ids| - 1], f) + if id in jobs && Matches(f, jobs[id]) then [jobs[id]] else []
  }

  lemma {:induction false} HitsPrefix(jobs: Store, ids: seq<string>, n: nat, f: JobFilter)
    requires n <= |ids|
    ensures Hits(jobs, ids[..n], f) <= Hits(jobs, ids, f)
    decreases |ids|
  {
    if n < |ids| {
      HitsPrefix(jobs, ids[..|ids| - 1], n, f);
      assert ids[..|ids| - 1][..n] == ids[..n];
    } else {
      assert ids[..n] == ids;
    }
  }

  /** The state of the scan after `seen`: everything after the offset collected, limit not yet met. */
  ghost predicate Scanned(jobs: Store, f: JobFilter, seen: seq<string>, skipped: int, result: seq<Job>) {
    var hits := Hits(jobs, seen, f);
    && result == Drop(f.offset, hits)
    && |result| < ListLimit(f)
    && skipped == if f.offset <= 0 then 0 else if |hits| < f.offset then |hits| else f.offset
  }

  lemma NothingScanned(jobs: Store, f: JobFilter)
    ensures Scanned(jobs, f, [], 0, [])
  {
  }

  lemma AllScanned(jobs: Store, f: JobFilter, ids: seq<string>, skipped: int, result: seq<Job>)
    requires Scanned(jobs, f, ids, skipped, result)
    ensures result == Take(ListLimit(f), Drop(f.offset, Hits(jobs, ids, f)))
  {
  }

  /** How one more id moves the scan on. */
  lemma ScanOne(jobs: Store, f: JobFilter, seen: seq<string>, id: string, skipped: int, result: seq<Job>)
    requires Scanned(jobs, f, seen, skipped, result)
    ensures !(id in jobs && Matches(f, jobs[id])) ==> Scanned(jobs, f, seen + [id], skipped, result)
    ensures id in jobs && Matches(f, jobs[id]) && skipped < f.offset ==>
              Scanned(jobs, f, seen + [id], skipped + 1, result)
    ensures id in jobs && Matches(f, jobs[id]) && skipped >= f.offset ==>
              && Drop(f.offset, Hits(jobs, seen + [id], f)) == result + [jobs[id]]
              && (|result| + 1 < ListLimit(f) ==> Scanned(jobs, f, seen + [id], skipped, result + [jobs[id]]))
  {
    var hits := Hits(jobs, seen, f);
    assert (seen + [id])[..|seen|] == seen;
    if id in jobs && Matches(f, jobs[id]) {
      assert Hits(jobs, seen + [id], f) == hits + [jobs[id]];
    } else {
      assert Hits(jobs, seen + [id], f) == hits;
    }
  }

  /** A full result cannot change however much of the index is still unread. */
  lemma FullIsFinal(jobs: Store, ids: seq<string>, n: nat, f: JobFilter, result: seq<Job>)
    requires n <= |ids| && |result| == ListLimit(f)
    requires result <= Drop(f.offset, Hits(jobs, ids[..n], f))
    ensures result == Take(ListLimit(f), Drop(f.offset, Hits(jobs, ids, f)))
  {
    HitsPrefix(jobs, ids, n, f);
    assert Drop(f.offset, Hits(jobs, ids[..n], f)) <= Drop(f.offset, Hits(jobs, ids, f));
  }

  lemma BatchFacts(rev: seq<string>, start: nat, ids: seq<string>)
    requires start <= |rev| && ids == Take(BATCH, Drop(start, rev))
    ensures start + |ids| <= |rev| && rev[..start] + ids == rev[..start + |ids|]
    ensures |ids| < BATCH ==> start + |ids| == |rev|
    ensures |ids| <= BATCH
  {
  }

  lemma PrefixExtends(rev: seq<string>, start: nat, ids: seq<string>, used: nat)
    requires start + |ids| <= |rev| && rev[..start] + ids == rev[..start + |ids|] && used <= |ids|
    ensures rev[..start] + ids[..used] == rev[..start + used]
  {
    assert rev[..start + used] == rev[..start + |ids|][..start + used];
  }

  /** One batch of the scan: stops inside the batch when the limit is met. */
  method Collect(jobs: Store, ids: seq<string>, f: JobFilter, ghost seen: seq<string>, skipped: int, result: seq<Job>)
    returns (skipped': int, result': seq<Job>, full: bool, ghost used: nat)
    requires Scanned(jobs, f, seen, skipped, result)
    ensures used <= |ids|
    ensures !full ==> Scanned(jobs, f, seen + ids, skipped', result')
    ensures full ==> |result'| == ListLimit(f) && result' == Drop(f.offset, Hits(jobs, seen + ids[..used], f))
  {
    hide Hits;
    skipped', result', full, used := skipped, result, false, 0;
    assert seen + ids[..0] == seen;
    for i := 0 to |ids|
      invariant Scanned(jobs, f, seen + ids[..i], skipped', result')
    {
      var id := ids[i];
      ScanOne(jobs, f, seen + ids[..i], id, skipped', result');
      assert seen + ids[..i] + [id] == seen + ids[..i + 1];
      if id in jobs && Matches(f, jobs[id]) {
        if skipped' < f.offset {
          skipped' := skipped' + 1;
        } else {
          result' := result' + [jobs[id]];
          if |result'| >= ListLimit(f) {
            full, used := true, i + 1;
            return;
          }
        }
      }
    }
    assert ids[..|ids|] == ids;
  }

  /** ZREVRANGE created start (start + count - 1). */
  method RevRange(created: map<string, int>, start: nat, count: nat) returns (ids: seq<string>)
    ensures ids == Take(count, Drop(start, RevIndex(created)))
  {
    var keys: seq<Key> := [];
    var todo := created.Keys;
    while todo != {}
      invariant todo <= created.Keys
      invariant forall k :: k in keys <==> k.id in created && k.id !in todo && k == Key(created[k.id], k.id)
      invariant Distinct(keys)
    {
      var id :| id in todo;
      assert Key(created[id], id) !in Elems(keys);
      keys := AddKey(keys, Key(created[id], id));
      todo := todo - {id};
    }
    assert Elems(keys) == AllKeys(created);
    keys := SortKeys(keys);
    ids := Take(count, Drop(start, RevIds(keys)));
  }

  /** The batched scan of `List`: 250 ids at a time, skipping what the filter rejects and the offset asks to
      skip, stopping as soon as the limit is met. */
  method BatchedScan(jobs: Store, created: map<string, int>, f: JobFilter) returns (result: seq<Job>)
    ensures result == Take(ListLimit(f), Drop(f.offset, Hits(jobs, RevIndex(created), f)))
  {
    hide Hits, RevIndex, Scanned;
    ghost var rev := RevIndex(created);
    result := [];
    var skipped, start, more := 0, 0, true;
    assert rev[..0] == [];
    NothingScanned(jobs, f);
    while more
      invariant 0 <= start <= |rev| && (more || start == |rev|)
      invariant Scanned(jobs, f, rev[..start], skipped, result)
      decreases |rev| - start, more
    {
      var ids := RevRange(created, start, BATCH);
      BatchFacts(rev, start, ids);
      var full;
      ghost var used;
      skipped, result, full, used := Collect(jobs, ids, f, rev[..start], skipped, result);
      if full {
        PrefixExtends(rev, start, ids, used);
        FullIsFinal(jobs, rev, start + used, f, result);
        return;
      }
      start := start + |ids|;
      more := |ids| == BATCH;
    }
    assert rev[..|rev|] == rev;
    AllScanned(jobs, f, rev, skipped, result);
  }

  class RedisServer {
    var jobs: Store
    var available: map<string, int>
    var terminal: map<string, int>
    var created: map<string, int>

    ghost function State(): Redis
      reads this
    {
      Redis(jobs, available, terminal, created)
    }

    method ClaimReady(now: int, limit: int, f: ClaimFilter) returns (claimed: seq<Job>)
      modifies this
      ensures (State(), claimed) == ClaimScript(old(State()), now, limit, f)
    {
      if limit <= 0 {
        return [];
      }
      hide FromIndex, ClaimOver, Keep, Takable, RangeByScore, Take;
      var ks := RangeQuery(available, now);
      TakeFromIndex(available, ks, limit);
      ks := Take(limit, ks);
      assert ks == ScanOf(State(), now, limit);
      claimed := ClaimLoop(ks, now, f);
    }

    method ClaimLoop(ks: seq<Key>, now: int, f: ClaimFilter) returns (claimed: seq<Job>)
      requires FromIndex(available, ks)
      modifies this
      ensures State() == ClaimOver(old(State()), ks, now, f)
      ensures forall k :: k in Keep(ks, Takable(old(State()), f)) ==> k.id in old(jobs)
      ensures claimed == Started(old(jobs), Keep(ks, Takable(old(State()), f)), now)
    {
      hide ClaimOver, Keep, Takable, StartAttempt, FromIndex;
      ghost var r := State();
      ghost var taken: seq<Key> := [];
      claimed := [];
      NothingVisited(r, now, f);
      for n := 0 to |ks|
        invariant State() == ClaimOver(r, ks[..n], now, f)
        invariant taken == Keep(ks[..n], Takable(r, f))
        invariant forall k :: k in taken ==> k.id in r.jobs
        invariant claimed == Started(r.jobs, taken, now)
      {
        ClaimOneMore(r, ks, n, now, f);
        KeepOneMore(r, ks, n, f);
        var started := Visit(ks[n].id, now, f);
        if started.Some? {
          taken := taken + [ks[n]];
          claimed := claimed + [started.value];
        }
      }
      assert ks[..|ks|] == ks;
    }

    /** One turn of the claim script's loop. */
    method Visit(id: string, now: int, f: ClaimFilter) returns (started: Option<Job>)
      modifies this
      ensures terminal == old(terminal) && created == old(created)
      ensures Takes(old(jobs), f, id) ==>
                && started == Some(StartAttempt(old(jobs)[id], now))
                && jobs == old(jobs)[id := started.value] && available == old(available) - {id}
      ensures !Takes(old(jobs), f, id) ==> started.None? && jobs == old(jobs)
      ensures !PendingIn(old(jobs), id) ==> available == old(available) - {id}
      ensures PendingIn(old(jobs), id) && !Takes(old(jobs), f, id) ==> available == old(available)
    {
      started := None;
      if id in jobs {
        var job := jobs[id];
        if job.status.Queued? || job.status.Scheduled? {
          if RedisAllows(f, job.queue, job.kind) {
            job := StartAttempt(job, now);
            jobs := jobs[id := job];
            available := available - {id};
            started := Some(job);
          }
        } else {
          available := available - {id};
        }
      } else {
        available := available - {id};
      }
    }

    method PruneTerminalBefore(cutoff: int) returns (removed: nat)
      modifies this
      ensures (State(), removed) == PruneScript(old(State()), cutoff)
    {
      ghost var r := State();
      var ks := RangeQuery(terminal, cutoff);
      RangeIds(r.terminal, cutoff, ks);
      removed := EraseLoop(ks);
    }

    method EraseLoop(ks: seq<Key>) returns (removed: nat)
      requires FromIndex(terminal, ks)
      modifies this
      ensures State() == Erase(old(State()), IdSet(ks))
      ensures removed == |IdSet(ks)|
    {
      ghost var r, gone := State(), {};
      removed := 0;
      assert State() == Erase(r, {});
      for n := 0 to |ks|
        invariant gone == IdSet(ks[..n])
        invariant State() == Erase(r, gone)
        invariant removed == |gone|
      {
        IdSetOneMore(ks, n, r.terminal);
        EraseOneMore(r, gone, ks[n].id);
        var id := ks[n].id;
        jobs := jobs - {id};
        created := created - {id};
        available := available - {id};
        terminal := terminal - {id};
        removed := removed + 1;
        gone := gone + {id};
      }
      assert ks[..|ks|] == ks;
    }

    method List(f: JobFilter) returns (result: seq<Job>)
      ensures result == Take(if f.limit <= 0 then 100 else f.limit, Drop(f.offset, Hits(jobs, RevIndex(created), f)))
    {
      result := BatchedScan(jobs, created, f);
    }
  }
}

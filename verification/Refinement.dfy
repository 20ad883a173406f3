/** The Redis store refines the in-memory store over every run.

    The comparison merges `queued` with `scheduled`, because only the in-memory store promotes a due job it does
    not claim, and leaves out `updatedAt`, which that promotion touches.
 */
module Refinement {
  import opened Order
  import opened Jobs
  import opened MemoryStores
  import opened RedisStores

  function Blur(j: Job): Job {
    j.(status := if j.status.IsPending() then Queued else j.status, updatedAt := 0)
  }

  function BlurAll(m: Store): Store {
    map id | id in m :: Blur(m[id])
  }

  function BlurSeq(js: seq<Job>): seq<Job> {
    seq(|js|, i requires 0 <= i < |js| => Blur(js[i]))
  }

  function BlurReply(reply: Reply): Reply {
    match reply
    case Stored(job) => Stored(Blur(job))
    case Claimed(jobs) => Claimed(BlurSeq(jobs))
    case Removed(n) => Removed(n)
    case Refused(e) => Refused(e)
  }

  ghost predicate Related(r: Redis, m: Store) {
    IndexesAgree(r) && Keyed(m) && BlurAll(r.jobs) == BlurAll(m)
  }

  lemma SameJob(a: Store, b: Store, id: string)
    requires BlurAll(a) == BlurAll(b)
    ensures id in a <==> id in b
    ensures id in a ==> Blur(a[id]) == Blur(b[id])
  {
    assert id in BlurAll(a) <==> id in a;
    assert id in BlurAll(b) <==> id in b;
    if id in a {
      assert BlurAll(a)[id] == Blur(a[id]);
      assert BlurAll(b)[id] == Blur(b[id]);
    }
  }

  /** Updates cannot tell blurred jobs apart. */
  lemma ApplyBlurred(u: Update, a: Job, b: Job)
    requires Blur(a) == Blur(b)
    ensures match (Apply(u, a), Apply(u, b))
            case (Ok(x), Ok(y)) => Blur(x) == Blur(y)
            case (Err(e), Err(f)) => e == f
            case _ => false
  {
  }

  // ---------------------------------------------------------------------------------------------
  // Claims

  lemma EligibleIsTakable(r: Redis, m: Store, now: int, f: ClaimFilter)
    requires Related(r, m) && NoBlanks(f)
    ensures Eligible(m, now, f) == ScoredUpTo(r.available, now) * Takable(r, f)
  {
    NamesAgree(f.queues);
    NamesAgree(f.kinds);
    forall k ensures k in Eligible(m, now, f) <==> k in ScoredUpTo(r.available, now) * Takable(r, f) {
      SameJob(r.jobs, m, k.id);
      if k in Eligible(m, now, f) {
        assert k.id in r.available;
        assert k in ScoredUpTo(r.available, now) && k in Takable(r, f);
      }
      if k in ScoredUpTo(r.available, now) * Takable(r, f) {
        assert CanClaim(m[k.id], now, f);
      }
    }
  }

  /** The script starts exactly the first `k` jobs the in-memory store would choose, for `k` its own count. */
  lemma TakenIsChosen(r: Redis, m: Store, now: int, limit: int, f: ClaimFilter)
    requires Related(r, m) && NoBlanks(f)
    ensures TakenBy(r, now, limit, f) == Chosen(m, now, |TakenBy(r, now, limit, f)|, f)
  {
    var due, takable, eligible := ScoredUpTo(r.available, now), Takable(r, f), Eligible(m, now, f);
    EligibleIsTakable(r, m, now, f);
    SortSubset(due, eligible);
    KeepCongruent(Sort(due), eligible, takable);
    KeepOfTake(limit, Sort(due), takable);
  }

  lemma StartedBlurred(a: Store, b: Store, ks: seq<Key>, now: int)
    requires BlurAll(a) == BlurAll(b)
    requires forall k :: k in ks ==> k.id in a && k.id in b && PendingIn(a, k.id)
    ensures BlurSeq(Started(a, ks, now)) == BlurSeq(Started(b, ks, now))
  {
    forall i | 0 <= i < |ks| ensures Blur(StartAttempt(a[ks[i].id], now)) == Blur(StartAttempt(b[ks[i].id], now)) {
      assert ks[i] in ks;
      SameJob(a, b, ks[i].id);
    }
  }

  lemma JobBlurred(a: Job, b: Job, now: int)
    requires Blur(a) == Blur(b)
    ensures Blur(StartAttempt(a, now)) == Blur(StartAttempt(b, now))
    ensures Blur(Promote(b, now)) == Blur(a)
  {
  }

  /** Starting the same keys, with or without promoting the rest, gives the same blurred store. */
  lemma AfterClaimBlurred(a: Store, b: Store, ids: set<string>, ks: seq<Key>, now: int)
    requires BlurAll(a) == BlurAll(b)
    requires forall id :: id in b ==> (id in ids <==> KeyAt(b, id) in ks)
    ensures BlurAll(StartIn(a, ids, now)) == BlurAll(AfterClaim(b, ks, now))
  {
    hide Blur, BlurAll, StartAttempt, Promote;
    forall id ensures id in a <==> id in b
              ensures id in a ==> Blur(StartIn(a, ids, now)[id]) == Blur(AfterClaim(b, ks, now)[id])
    {
      SameJob(a, b, id);
      if id in a {
        JobBlurred(a[id], b[id], now);
      }
    }
    BlurEqual(StartIn(a, ids, now), AfterClaim(b, ks, now));
  }

  lemma BlurEqual(a: Store, b: Store)
    requires a.Keys == b.Keys && forall id :: id in a ==> Blur(a[id]) == Blur(b[id])
    ensures BlurAll(a) == BlurAll(b)
  {
    hide Blur;
  }

  lemma NothingChosen(m: Store, now: int)
    ensures BlurAll(AfterClaim(m, [], now)) == BlurAll(m)
  {
  }

  lemma ClaimRefines(r: Redis, m: Store, now: int, limit: int, f: ClaimFilter)
    requires Related(r, m) && NoBlanks(f) && limit > 0
    ensures var k := |TakenBy(r, now, limit, f)|;
            && k <= limit
            && BlurAll(ClaimScript(r, now, limit, f).0.jobs) == BlurAll(ClaimResult(m, now, k, f).0)
            && BlurSeq(ClaimScript(r, now, limit, f).1) == BlurSeq(ClaimResult(m, now, k, f).1)
  {
    var taken := TakenBy(r, now, limit, f);
    ScanFacts(r, now, limit, f);
    TakenIsChosen(r, m, now, limit, f);
    forall id | id in m
      ensures id in TakenIds(r.jobs, ScanOf(r, now, limit), f) <==> KeyAt(m, id) in taken
    {
      SameJob(r.jobs, m, id);
      TakenIffKept(r, now, limit, f, id);
      assert KeyAt(m, id) == KeyAt(r.jobs, id);
    }
    AfterClaimBlurred(r.jobs, m, TakenIds(r.jobs, ScanOf(r, now, limit), f), taken, now);
    NothingChosen(m, now);
    forall k | k in taken ensures k.id in m && PendingIn(r.jobs, k.id) {
      SameJob(r.jobs, m, k.id);
    }
    StartedBlurred(r.jobs, m, taken, now);
  }

  /** The script may claim fewer jobs than the in-memory store, because it applies the limit before the filter. Both
      claim the same exactly when the filter rejects none of the first `limit` due jobs, or no
      claimable job lies beyond them. */
  lemma ClaimsAgreeIff(r: Redis, m: Store, now: int, limit: int, f: ClaimFilter)
    requires Related(r, m) && NoBlanks(f) && limit > 0
    ensures (BlurSeq(ClaimScript(r, now, limit, f).1) == BlurSeq(ClaimResult(m, now, limit, f).1)) <==>
            (Elems(ScanOf(r, now, limit)) <= Takable(r, f) || Eligible(m, now, f) <= Elems(ScanOf(r, now, limit)))
  {
    hide ClaimScript, ClaimResult, BlurSeq, Chosen, TakenBy, ScanOf, Takable, Eligible;
    var k, full := |TakenBy(r, now, limit, f)|, |Chosen(m, now, limit, f)|;
    ClaimRefines(r, m, now, limit, f);
    TakenIsChosen(r, m, now, limit, f);
    ClaimCounts(m, now, k, limit, f);
    BlurLength(ClaimScript(r, now, limit, f).1);
    BlurLength(ClaimResult(m, now, k, f).1);
    BlurLength(ClaimResult(m, now, limit, f).1);
    if k == full {
      AllTaken(r, m, now, limit, f);
    }
    if Elems(ScanOf(r, now, limit)) <= Takable(r, f) {
      NoneRejected(r, m, now, limit, f);
    } else if Eligible(m, now, f) <= Elems(ScanOf(r, now, limit)) {
      NoneBeyond(r, m, now, limit, f);
    }
  }

  lemma BlurLength(js: seq<Job>)
    ensures |BlurSeq(js)| == |js|
  {
  }

  lemma TakenElems(r: Redis, now: int, limit: int, f: ClaimFilter)
    ensures Elems(TakenBy(r, now, limit, f)) == Elems(ScanOf(r, now, limit)) * Takable(r, f)
  {
    hide ScanOf, Takable;
  }

  /** If the script claims as many as the in-memory store, it rejected none or no claimable job lies beyond its scan. */
  lemma AllTaken(r: Redis, m: Store, now: int, limit: int, f: ClaimFilter)
    requires Related(r, m) && NoBlanks(f) && limit > 0
    requires |TakenBy(r, now, limit, f)| == |Chosen(m, now, limit, f)|
    ensures Elems(ScanOf(r, now, limit)) <= Takable(r, f) || Eligible(m, now, f) <= Elems(ScanOf(r, now, limit))
  {
    hide Takable, Eligible, Related, Chosen, TakenBy, ScanOf;
    var k := |TakenBy(r, now, limit, f)|;
    TakenIsChosen(r, m, now, limit, f);
    TakenElems(r, now, limit, f);
    ChosenFacts(m, now, limit, f);
    if k < limit {
      assert |Eligible(m, now, f)| == k;
      if k > 0 {
        ShortChoice(m, now, k, f);
      }
    } else {
      FullScan(r, now, limit, f);
    }
  }

  lemma FullScan(r: Redis, now: int, limit: int, f: ClaimFilter)
    requires limit > 0 && |TakenBy(r, now, limit, f)| >= limit
    ensures Elems(ScanOf(r, now, limit)) <= Takable(r, f)
  {
    hide Takable, RangeByScore;
    KeepEverything(ScanOf(r, now, limit), Takable(r, f));
  }

  lemma NoneRejected(r: Redis, m: Store, now: int, limit: int, f: ClaimFilter)
    requires Related(r, m) && NoBlanks(f) && limit > 0 && Elems(ScanOf(r, now, limit)) <= Takable(r, f)
    ensures |TakenBy(r, now, limit, f)| == |Chosen(m, now, limit, f)|
  {
    hide Takable, Eligible, Related, ScoredUpTo;
    EligibleIsTakable(r, m, now, f);
    var due, eligible := ScoredUpTo(r.available, now), Eligible(m, now, f);
    KeepAll(ScanOf(r, now, limit), Takable(r, f));
    assert Elems(ScanOf(r, now, limit)) <= Elems(Sort(due));
    TakeSame(limit, Sort(due), Sort(eligible), eligible, due);
  }

  lemma NoneBeyond(r: Redis, m: Store, now: int, limit: int, f: ClaimFilter)
    requires Related(r, m) && NoBlanks(f) && limit > 0 && Eligible(m, now, f) <= Elems(ScanOf(r, now, limit))
    ensures |TakenBy(r, now, limit, f)| == |Chosen(m, now, limit, f)|
  {
    hide Takable, Eligible, Related, ScoredUpTo, Chosen;
    EligibleIsTakable(r, m, now, f);
    TakenElems(r, now, limit, f);
    var taken := TakenBy(r, now, limit, f);
    assert Elems(ScanOf(r, now, limit)) <= Elems(Sort(ScoredUpTo(r.available, now)));
    assert Elems(taken) == Eligible(m, now, f);
    ScanFacts(r, now, limit, f);
    SortUnique(taken, Eligible(m, now, f));
    ShortChoice(m, now, limit, f);
  }

  lemma ShortChoice(m: Store, now: int, limit: int, f: ClaimFilter)
    requires limit > 0 && |Eligible(m, now, f)| <= limit
    ensures Chosen(m, now, limit, f) == Sort(Eligible(m, now, f))
  {
    hide Eligible;
  }

  /** Claims with the same choice are the same, and a longer choice is a longer reply. */
  lemma ClaimCounts(m: Store, now: int, k: nat, limit: int, f: ClaimFilter)
    requires limit > 0 && k <= limit && k == |Chosen(m, now, k, f)|
    ensures |ClaimResult(m, now, k, f).1| == k
    ensures |ClaimResult(m, now, limit, f).1| == |Chosen(m, now, limit, f)|
    ensures k == |Chosen(m, now, limit, f)| ==> ClaimResult(m, now, k, f).1 == ClaimResult(m, now, limit, f).1
  {
    assert k == |Chosen(m, now, limit, f)| ==> Chosen(m, now, k, f) == Chosen(m, now, limit, f);
  }

  lemma {:induction false} KeepEverything<T>(s: seq<T>, keep: set<T>)
    requires |Keep(s, keep)| == |s|
    ensures Elems(s) <= keep
  {
    if s != [] {
      KeepEverything(s[1..], keep);
    }
  }

  /** When the first `limit` of the sorted whole all belong to a part, they are the first of the sorted part. */
  lemma TakeSame(limit: int, all: seq<Key>, part: seq<Key>, some: set<Key>, whole: set<Key>)
    requires limit > 0 && all == Sort(whole) && part == Sort(some) && some <= whole
    requires Elems(Take(limit, all)) <= some
    ensures |Take(limit, all)| == |Take(limit, part)|
  {
    if |all| < limit {
      assert some == whole;
    } else {
      SortSubset(whole, some);
      KeepOfTake(limit, all, some);
      KeepAll(Take(limit, all), some);
    }
  }

  /** The store with exactly these jobs and the indexes they determine. */
  function RedisOf(m: Store): Redis {
    Redis(m, AvailableOf(m), TerminalOf(m), CreatedOf(m))
  }

  lemma RedisOfRelated(m: Store)
    requires Keyed(m)
    ensures Related(RedisOf(m), m)
  {
  }

  /** Creating two jobs brings both stores to the same two jobs. */
  lemma TwoCreated(a: Job, b: Job, m: Store)
    requires a.id != b.id && m == map[a.id := a, b.id := b]
    ensures RedisRun(EMPTY, [Create(a), Create(b)]) == RedisOf(m)
    ensures MemoryRun(map[], [Create(a), Create(b)]) == m
  {
    hide RedisRun, MemoryRun, AddJob;
    assert [] + [Create(a)] == [Create(a)] && [Create(a)] + [Create(b)] == [Create(a), Create(b)];
    NoCalls();
    OneMoreCall(EMPTY, [], Create(a));
    OneMoreCall(EMPTY, [Create(a)], Create(b));
    MemoryOneMore(map[], [], Create(a));
    MemoryOneMore(map[], [Create(a)], Create(b));
    CreatedJobs(EMPTY, a);
    CreatedJobs(AddJob(EMPTY, a), b);
    EmptyAgrees();
    AddJobAgrees(EMPTY, a);
    AddJobAgrees(AddJob(EMPTY, a), b);
    assert map[][a.id := a][b.id := b] == m;
  }

  lemma NoCalls()
    ensures RedisRun(EMPTY, []) == EMPTY && MemoryRun(map[], []) == map[]
  {
  }

  lemma CreatedJobs(r: Redis, j: Job)
    ensures AddJob(r, j).jobs == r.jobs[j.id := j]
  {
  }

  /** A filter can starve: after two jobs were created, with one slot and the one of another type in front, the script
      claims nothing although a claimable job is due, which the in-memory store claims. The two stores are in related
      states. */
  lemma StarvedClaim(a: Job, b: Job, now: int, f: ClaimFilter)
    requires a.status == b.status == Queued && a.availableAt == b.availableAt == now
    requires StrLt(a.id, b.id) && a.kind != b.kind && b.kind != "" && f == ClaimFilter([], [b.kind])
    ensures var r, m := RedisRun(EMPTY, [Create(a), Create(b)]), MemoryRun(map[], [Create(a), Create(b)]);
            && Related(r, m) && NoBlanks(f)
            && ClaimScript(r, now, 1, f).1 == []
            && (exists j :: ClaimResult(m, now, 1, f).1 == [j] && j.id == b.id)
  {
    hide RedisRun, MemoryRun, ClaimScript, ClaimResult, RedisOf;
    var m := map[a.id := a, b.id := b];
    StrLtTotal(a.id, b.id);
    TwoCreated(a, b, m);
    RedisOfRelated(m);
    StarvedScript(a, b, now, m, f);
    OneChosen(a, b, now, m, f);
  }

  lemma OneChosen(a: Job, b: Job, now: int, m: Store, f: ClaimFilter)
    requires b.status == Queued && b.availableAt == now && a.id != b.id && a.kind != b.kind && b.kind != ""
    requires m == map[a.id := a, b.id := b] && f == ClaimFilter([], [b.kind])
    ensures exists j :: ClaimResult(m, now, 1, f).1 == [j] && j.id == b.id
  {
    hide ClaimResult, Eligible, Chosen, ClaimContract;
    SomeChosen(m, now, 1, f, b.id);
    var claimed := ClaimResult(m, now, 1, f).1;
    assert Keyed(m);
    ClaimOptimum(m, now, 1, f, ClaimResult(m, now, 1, f).0, claimed);
    assert claimed == [claimed[0]];
    OnlyOneFits(a, b, now, m, f, claimed[0].id);
  }

  lemma OnlyOneFits(a: Job, b: Job, now: int, m: Store, f: ClaimFilter, id: string)
    requires a.kind != b.kind && b.kind != "" && m == map[a.id := a, b.id := b] && f == ClaimFilter([], [b.kind])
    requires id in m && CanClaim(m[id], now, f)
    ensures id == b.id
  {
    assert b.kind in f.kinds;
  }

  lemma StarvedScript(a: Job, b: Job, now: int, m: Store, f: ClaimFilter)
    requires a.status == b.status == Queued && a.availableAt == b.availableAt == now
    requires StrLt(a.id, b.id) && a.kind != b.kind
    requires m == map[a.id := a, b.id := b] && f.kinds == [b.kind]
    ensures |ClaimScript(RedisOf(m), now, 1, f).1| == 0
  {
    TwoAvailable(a, b, now, m, f);
    TwoDue(AvailableOf(m), a.id, b.id, now);
    NothingTaken(RedisOf(m), now, f, Key(now, a.id));
  }

  lemma TwoAvailable(a: Job, b: Job, now: int, m: Store, f: ClaimFilter)
    requires a.status == b.status == Queued && a.availableAt == b.availableAt == now
    requires StrLt(a.id, b.id) && a.kind != b.kind
    requires m == map[a.id := a, b.id := b] && f.kinds == [b.kind]
    ensures AvailableOf(m) == map[a.id := now, b.id := now]
    ensures !Takes(m, f, a.id)
  {
    StrLtTotal(a.id, b.id);
  }

  lemma NothingTaken(r: Redis, now: int, f: ClaimFilter, first: Key)
    requires RangeByScore(r.available, now) != [] && RangeByScore(r.available, now)[0] == first
    requires !Takes(r.jobs, f, first.id)
    ensures |ClaimScript(r, now, 1, f).1| == 0
  {
    var taken := TakenBy(r, now, 1, f);
    assert ScanOf(r, now, 1) == [first];
    assert Elems(taken) == {};
  }

  lemma SomeChosen(m: Store, now: int, limit: int, f: ClaimFilter, id: string)
    requires limit > 0 && id in m && CanClaim(m[id], now, f)
    ensures 0 < |ClaimResult(m, now, limit, f).1| <= limit
  {
    assert KeyAt(m, id) in Eligible(m, now, f);
    ChosenFacts(m, now, limit, f);
  }

  lemma TwoDue(z: map<string, int>, a: string, b: string, now: int)
    requires StrLt(a, b) && z == map[a := now, b := now]
    ensures RangeByScore(z, now) == [Key(now, a), Key(now, b)]
  {
    var x, y := Key(now, a), Key(now, b);
    assert x == Key(z[a], a) && y == Key(z[b], b);
    assert x in ScoredUpTo(z, now) && y in ScoredUpTo(z, now);
    SortUnique([x, y], ScoredUpTo(z, now));
  }

  // ---------------------------------------------------------------------------------------------
  // Steps and runs

  predicate Comparable(op: Op) {
    op.Claim? ==> NoBlanks(op.filter)
  }

  /** The in-memory call a Redis call amounts to. */
  ghost function MemoryOp(r: Redis, op: Op): Op {
    match op
    case Claim(now, limit, f) => if limit <= 0 then op else Claim(now, |TakenBy(r, now, limit, f)|, f)
    case Prune(cutoff) => Prune(cutoff + 1)
    case _ => op
  }

  /** The correspondence leaves every call alone except for a smaller claim limit and the prune cutoff. */
  ghost predicate SameCall(redis: Op, memory: Op) {
    match redis
    case Claim(now, limit, f) => memory.Claim? && memory.now == now && memory.filter == f && memory.limit <= limit
    case Prune(cutoff) => memory == Prune(cutoff + 1)
    case _ => memory == redis
  }

  lemma MemoryOpSameCall(r: Redis, op: Op)
    ensures SameCall(op, MemoryOp(r, op))
  {
    if op.Claim? && op.limit > 0 {
      ScanFacts(r, op.now, op.limit, op.filter);
    }
  }

  lemma StepRefines(r: Redis, m: Store, op: Op)
    requires Related(r, m) && Comparable(op)
    ensures Related(RedisStep(r, op).0, Step(m, MemoryOp(r, op)).0)
    ensures BlurReply(RedisStep(r, op).1) == BlurReply(Step(m, MemoryOp(r, op)).1)
  {
    StepKeepsIndexes(r, op);
    hide RedisStep, MemoryStores.Step, IndexesAgree, BlurReply;
    match op
    case Create(job) =>
      CreateRefines(r, m, job);
    case Change(id, u) =>
      ChangeRefines(r, m, id, u);
    case Claim(now, limit, f) =>
      ClaimStepRefines(r, m, now, limit, f);
    case Prune(cutoff) =>
      PruneStepRefines(r, m, cutoff);
  }

  lemma ClaimStepRefines(r: Redis, m: Store, now: int, limit: int, f: ClaimFilter)
    requires Related(r, m) && NoBlanks(f)
    ensures var op := Claim(now, limit, f);
            && BlurAll(RedisStep(r, op).0.jobs) == BlurAll(Step(m, MemoryOp(r, op)).0)
                  && Keyed(Step(m, MemoryOp(r, op)).0)
            && BlurReply(RedisStep(r, op).1) == BlurReply(Step(m, MemoryOp(r, op)).1)
  {
    hide ClaimScript, ClaimResult, TakenBy;
    if limit > 0 {
      ClaimRefines(r, m, now, limit, f);
      ClaimMeetsContract(m, now, |TakenBy(r, now, limit, f)|, f);
    } else {
      NoClaim(r, m, now, limit, f);
    }
  }

  lemma NoClaim(r: Redis, m: Store, now: int, limit: int, f: ClaimFilter)
    requires limit <= 0
    ensures ClaimScript(r, now, limit, f) == (r, [])
    ensures ClaimResult(m, now, limit, f) == (m, [])
  {
  }

  lemma PruneStepRefines(r: Redis, m: Store, cutoff: int)
    requires Related(r, m)
    ensures var op := Prune(cutoff);
            && BlurAll(RedisStep(r, op).0.jobs) == BlurAll(Step(m, MemoryOp(r, op)).0)
                  && Keyed(Step(m, MemoryOp(r, op)).0)
            && BlurReply(RedisStep(r, op).1) == BlurReply(Step(m, MemoryOp(r, op)).1)
  {
    PruneRefines(r, m, cutoff);
  }

  lemma CreateRefines(r: Redis, m: Store, job: Job)
    requires Related(r, m)
    ensures var op := Create(job);
            && BlurAll(RedisStep(r, op).0.jobs) == BlurAll(Step(m, op).0) && Keyed(Step(m, op).0)
            && BlurReply(RedisStep(r, op).1) == BlurReply(Step(m, op).1)
  {
    SameJob(r.jobs, m, job.id);
    SetBlurred(r.jobs, m, job.id, job, job);
  }

  lemma ChangeRefines(r: Redis, m: Store, id: string, u: Update)
    requires Related(r, m)
    ensures var op := Change(id, u);
            && BlurAll(RedisStep(r, op).0.jobs) == BlurAll(Step(m, op).0) && Keyed(Step(m, op).0)
            && BlurReply(RedisStep(r, op).1) == BlurReply(Step(m, op).1)
  {
    hide Blur, BlurAll, Apply;
    SameJob(r.jobs, m, id);
    if id in r.jobs {
      ApplyBlurred(u, r.jobs[id], m[id]);
      if Apply(u, m[id]).Ok? {
        SetBlurred(r.jobs, m, id, Apply(u, r.jobs[id]).value, Apply(u, m[id]).value);
      }
    }
  }

  lemma SetBlurred(a: Store, b: Store, id: string, x: Job, y: Job)
    requires BlurAll(a) == BlurAll(b) && Blur(x) == Blur(y)
    ensures BlurAll(a[id := x]) == BlurAll(b[id := y])
  {
    assert BlurAll(a[id := x]) == BlurAll(a)[id := Blur(x)];
    assert BlurAll(b[id := y]) == BlurAll(b)[id := Blur(y)];
  }

  lemma PruneRefines(r: Redis, m: Store, cutoff: int)
    requires Related(r, m)
    ensures RetiredUpTo(r, cutoff) == Prunable(m, cutoff + 1)
    ensures BlurAll(r.jobs - RetiredUpTo(r, cutoff)) == BlurAll(m - Prunable(m, cutoff + 1))
  {
    forall id ensures id in RetiredUpTo(r, cutoff) <==> id in Prunable(m, cutoff + 1) {
      SameJob(r.jobs, m, id);
    }
    var gone := RetiredUpTo(r, cutoff);
    assert BlurAll(r.jobs - gone) == BlurAll(r.jobs) - gone;
    assert BlurAll(m - gone) == BlurAll(m) - gone;
  }

  function BlurReplies(replies: seq<Reply>): (blurred: seq<Reply>)
    ensures |blurred| == |replies|
  {
    seq(|replies|, i requires 0 <= i < |replies| => BlurReply(replies[i]))
  }

  ghost function MemoryRun(m: Store, ops: seq<Op>): Store
    decreases |ops|
  {
    if ops == [] then m else Step(MemoryRun(m, ops[..|ops| - 1]), ops[|ops| - 1]).0
  }

  ghost function MemoryReplies(m: Store, ops: seq<Op>): (replies: seq<Reply>)
    ensures |replies| == |ops|
    decreases |ops|
  {
    if ops == [] then []
    else MemoryReplies(m, ops[..|ops| - 1]) + [Step(MemoryRun(m, ops[..|ops| - 1]), ops[|ops| - 1]).1]
  }

  ghost function MemoryOps(r: Redis, ops: seq<Op>): (mops: seq<Op>)
    ensures |mops| == |ops|
    decreases |ops|
  {
    if ops == [] then []
    else
      var before, op := ops[..|ops| - 1], ops[|ops| - 1];
      MemoryOps(r, before) + [MemoryOp(RedisRun(r, before), op)]
  }

  lemma {:induction false} MemoryOpsSameCalls(r: Redis, ops: seq<Op>)
    ensures forall i :: 0 <= i < |ops| ==> SameCall(ops[i], MemoryOps(r, ops)[i])
    decreases |ops|
  {
    if ops != [] {
      MemoryOpsSameCalls(r, ops[..|ops| - 1]);
      MemoryOpSameCall(RedisRun(r, ops[..|ops| - 1]), ops[|ops| - 1]);
    }
  }

  /** Every run of the Redis store is, reply for reply and state for state, a run of the in-memory store
      that makes the same calls, with claim limits possibly lowered and prune cutoffs raised by one. */
  lemma {:induction false} RunRefines(r: Redis, m: Store, ops: seq<Op>)
    requires Related(r, m)
    requires forall i :: 0 <= i < |ops| ==> Comparable(ops[i])
    ensures forall i :: 0 <= i < |ops| ==> SameCall(ops[i], MemoryOps(r, ops)[i])
    ensures BlurReplies(Replies(r, ops)) == BlurReplies(MemoryReplies(m, MemoryOps(r, ops)))
    ensures Related(RedisRun(r, ops), MemoryRun(m, MemoryOps(r, ops)))
    decreases |ops|
  {
    hide RedisStep, MemoryStores.Step, Related, SameCall, MemoryOp, Comparable, BlurReply;
    MemoryOpsSameCalls(r, ops);
    if ops != [] {
      var before, op := ops[..|ops| - 1], ops[|ops| - 1];
      RunRefines(r, m, before);
      StepRefines(RedisRun(r, before), MemoryRun(m, MemoryOps(r, before)), op);
      OneMoreCall(r, before, op);
      MemoryOneMore(m, MemoryOps(r, before), MemoryOp(RedisRun(r, before), op));
      assert ops == before + [op];
      BlurAppend(Replies(r, before), RedisStep(RedisRun(r, before), op).1);
      BlurAppend(MemoryReplies(m, MemoryOps(r, before)),
          Step(MemoryRun(m, MemoryOps(r, before)), MemoryOp(RedisRun(r, before), op)).1);
    }
  }

  lemma BlurAppend(replies: seq<Reply>, reply: Reply)
    ensures BlurReplies(replies + [reply]) == BlurReplies(replies) + [BlurReply(reply)]
  {
    hide BlurReply;
  }

  lemma MemoryOneMore(m: Store, before: seq<Op>, op: Op)
    ensures MemoryRun(m, before + [op]) == Step(MemoryRun(m, before), op).0
    ensures MemoryReplies(m, before + [op]) == MemoryReplies(m, before) + [Step(MemoryRun(m, before), op).1]
  {
    hide MemoryStores.Step;
    assert (before + [op])[..|before|] == before;
  }
}

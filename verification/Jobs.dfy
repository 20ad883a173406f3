/** The job record, its lifecycle states and the transition each store call makes on one job.

    Times are integer milliseconds. Payloads, results and metadata are carried along unread.
 */
module Jobs {
  import opened Order
  import opened Wrappers

  datatype Error =
    | NotFound | AlreadyExists | CannotCancelRunning | AlreadyTerminal | NotRetryable

  datatype Result<+T> = Ok(value: T) | Err(error: Error)

  datatype Status = Scheduled | Queued | Running | Succeeded | Failed | Canceled {
    predicate IsTerminal() {
      Succeeded? || Failed? || Canceled?
    }
    predicate IsPending() {
      Scheduled? || Queued?
    }
  }

  datatype Job = Job(
    id: string, kind: string, queue: string, status: Status,
    payload: string, result: string, metadata: map<string, string>,
    attempt: int, maxAttempts: int, timeout: int, lastError: string,
    createdAt: int, updatedAt: int, availableAt: int,
    startedAt: Option<int>, completedAt: Option<int>)

  /** The calls that rewrite one stored job. */
  datatype Update =
    | MarkSucceeded(result: string, now: int)
    | MarkRetry(reason: string, runAt: int, now: int)
    | MarkFailed(reason: string, now: int)
    | Cancel(now: int)
    | Retry(now: int)

  /** What an update makes of a job, or why it refuses. */
  function Apply(u: Update, j: Job): (r: Result<Job>)
    ensures r.Ok? ==>
              && r.value.id == j.id && r.value.kind == j.kind && r.value.queue == j.queue
              && r.value.maxAttempts == j.maxAttempts && r.value.createdAt == j.createdAt
    ensures r.Ok? ==> (r.value.status.IsTerminal() <==> r.value.completedAt.Some?)
    ensures r.Ok? ==> !r.value.status.Running?
    ensures r.Err? <==> (u.Cancel? && !j.status.IsPending()) || (u.Retry? && !(j.status.Failed? || j.status.Canceled?))
    ensures r.Ok? ==> (r.value.status.IsPending() <==> u.MarkRetry? || u.Retry?)
    ensures r.Ok? && u.MarkRetry? ==> r.value.availableAt == u.runAt
    ensures r.Ok? && u.Retry? ==> r.value.availableAt == u.now
    ensures r.Ok? ==> r.value.attempt == if u.Retry? then 0 else j.attempt
  {
    match u
    case MarkSucceeded(result, now) =>
      Ok(j.(status := Succeeded, result := result, lastError := "", completedAt := Some(now), updatedAt := now))
    case MarkRetry(reason, runAt, now) =>
      Ok(j.(status := Scheduled, lastError := reason, availableAt := runAt, completedAt := None, updatedAt := now))
    case MarkFailed(reason, now) =>
      Ok(j.(status := Failed, lastError := reason, completedAt := Some(now), updatedAt := now))
    case Cancel(now) =>
      if j.status.Running? then Err(CannotCancelRunning)
      else if j.status.IsTerminal() then Err(AlreadyTerminal)
      else Ok(j.(status := Canceled, completedAt := Some(now), updatedAt := now))
    case Retry(now) =>
      if !(j.status.Failed? || j.status.Canceled?) then Err(NotRetryable)
      else Ok(j.(status := Queued, attempt := 0, lastError := "", result := "", availableAt := now,
                 startedAt := None, completedAt := None, updatedAt := now))
  }

  /** An attempt has begun: the job is running, one attempt further, and otherwise what it was. */
  ghost predicate HasBegun(before: Job, after: Job, now: int) {
    && after.status == Running && after.attempt == before.attempt + 1
    && after.startedAt == Some(now) && after.updatedAt == now
    && after.id == before.id && after.kind == before.kind && after.queue == before.queue
    && after.payload == before.payload && after.result == before.result && after.metadata == before.metadata
    && after.maxAttempts == before.maxAttempts && after.timeout == before.timeout
    && after.lastError == before.lastError && after.createdAt == before.createdAt
    && after.availableAt == before.availableAt && after.completedAt == before.completedAt
  }

  /** What a successful claim makes of a pending job. */
  function StartAttempt(j: Job, now: int): (r: Job)
    ensures HasBegun(j, r, now)
  {
    j.(status := Running, attempt := j.attempt + 1, startedAt := Some(now), updatedAt := now)
  }

  predicate Due(j: Job, now: int) {
    j.status.IsPending() && j.availableAt <= now
  }

  datatype ClaimFilter = ClaimFilter(queues: seq<string>, kinds: seq<string>)

  /** The in-memory store drops blank names, and a list left empty admits everything. */
  predicate MemoryAdmits(names: seq<string>, name: string) {
    (forall n | n in names :: n == "") || (name != "" && name in names)
  }

  /** The claim script takes the names as they are. */
  predicate RedisAdmits(names: seq<string>, name: string) {
    names == [] || name in names
  }

  predicate MemoryAllows(f: ClaimFilter, queue: string, kind: string) {
    MemoryAdmits(f.queues, queue) && MemoryAdmits(f.kinds, kind)
  }

  predicate RedisAllows(f: ClaimFilter, queue: string, kind: string) {
    RedisAdmits(f.queues, queue) && RedisAdmits(f.kinds, kind)
  }

  predicate NoBlanks(f: ClaimFilter) {
    "" !in f.queues && "" !in f.kinds
  }

  /** The two stores read a claim filter alike exactly when it names no blank queue or type. */
  lemma FiltersAgreeIff(f: ClaimFilter)
    ensures (forall q, k :: MemoryAllows(f, q, k) == RedisAllows(f, q, k)) <==> NoBlanks(f)
  {
    if NoBlanks(f) {
      NamesAgree(f.queues);
      NamesAgree(f.kinds);
    } else {
      var q, k := DisagreeOn(f);
    }
  }

  lemma NamesAgree(names: seq<string>)
    requires "" !in names
    ensures forall name :: MemoryAdmits(names, name) == RedisAdmits(names, name)
  {
    if names != [] {
      assert names[0] in names && names[0] != "";
    }
  }

  /** A list with a blank name admits something different in the two stores. */
  lemma BlankDisagrees(names: seq<string>)
    requires "" in names
    ensures (forall n :: MemoryAdmits(names, n)) || (RedisAdmits(names, "") && !MemoryAdmits(names, ""))
    ensures RedisAdmits(names, "")
    ensures (forall n :: MemoryAdmits(names, n)) ==> !RedisAdmits(names, "x")
  {
    assert MemoryAdmits(names, "") ==> "x" !in names;
  }

  lemma SomeAdmitted(names: seq<string>) returns (n: string)
    requires "" !in names
    ensures MemoryAdmits(names, n) && RedisAdmits(names, n)
  {
    n := if names == [] then "" else names[0];
    assert names != [] ==> n in names;
  }

  lemma DisagreeOn(f: ClaimFilter) returns (q: string, k: string)
    requires !NoBlanks(f)
    ensures MemoryAllows(f, q, k) != RedisAllows(f, q, k)
  {
    if "" in f.queues && "" in f.kinds {
      BlankDisagrees(f.queues);
      BlankDisagrees(f.kinds);
      q := if MemoryAllows(f, "", "") then "x" else "";
      k := q;
    } else if "" in f.queues {
      BlankDisagrees(f.queues);
      k := SomeAdmitted(f.kinds);
      q := if MemoryAdmits(f.queues, "") then "x" else "";
    } else {
      BlankDisagrees(f.kinds);
      q := SomeAdmitted(f.queues);
      k := if MemoryAdmits(f.kinds, "") then "x" else "";
    }
  }

  // ---------------------------------------------------------------------------------------------
  // Store calls and their replies

  type Store = map<string, Job>

  datatype Op =
    | Create(job: Job)
    | Change(id: string, update: Update)
    | Claim(now: int, limit: int, filter: ClaimFilter)
    | Prune(cutoff: int)

  datatype Reply =
    | Stored(job: Job)
    | Claimed(jobs: seq<Job>)
    | Removed(count: nat)
    | Refused(error: Error)

  ghost predicate Keyed(m: Store) {
    forall id :: id in m ==> m[id].id == id
  }

  function KeyAt(m: Store, id: string): Key
    requires id in m
  {
    Key(m[id].availableAt, id)
  }

  function KeyOf(j: Job): Key {
    Key(j.availableAt, j.id)
  }

  /** The running copies of the chosen jobs, in the chosen order. */
  function Started(m: Store, picked: seq<Key>, now: int): (r: seq<Job>)
    requires forall k :: k in picked ==> k.id in m
    ensures |r| == |picked|
    ensures forall i :: 0 <= i < |r| ==> r[i] == StartAttempt(m[picked[i].id], now)
  {
    seq(|picked|, i requires 0 <= i < |picked| =>
      assert picked[i] in picked;
      StartAttempt(m[picked[i].id], now))
  }

  /** What a worker may rely on after any claim, whichever store answered it: at most `limit` distinct
      jobs, each pending and due before, each now stored exactly as returned; every other job
      keeps everything but a scheduled job's promotion to queued. */
  ghost predicate ClaimContract(m: Store, now: int, limit: int, m': Store, claimed: seq<Job>) {
    && |claimed| <= (if limit <= 0 then 0 else limit)
    && (limit <= 0 ==> m' == m)
    && m'.Keys == m.Keys
    && (forall i :: 0 <= i < |claimed| ==>
          && claimed[i].id in m
          && Due(m[claimed[i].id], now)
          && HasBegun(m[claimed[i].id], claimed[i], now)
          && m'[claimed[i].id] == claimed[i])
    && (forall i, j :: 0 <= i < j < |claimed| ==> claimed[i].id != claimed[j].id)
    && (forall id :: id in m && (forall i :: 0 <= i < |claimed| ==> claimed[i].id != id) ==>
          m'[id] == m[id] || (Due(m[id], now) && m'[id] == m[id].(status := Queued, updatedAt := now)))
  }

  /** Fields determine a job that has begun. */
  lemma BegunIs(before: Job, after: Job, now: int)
    requires HasBegun(before, after, now)
    ensures after == StartAttempt(before, now)
  {
  }

  /** What anybody may rely on after any prune: only terminal jobs go, nothing else changes. */
  ghost predicate PruneContract(m: Store, m': Store) {
    && m'.Keys <= m.Keys
    && (forall id :: id in m ==> if id in m' then m'[id] == m[id] else m[id].status.IsTerminal())
  }

  /** What a caller may rely on after any call, whichever store answered it. */
  ghost predicate CallContract(m: Store, op: Op, reply: Reply, m': Store) {
    match op
    case Create(job) =>
      if job.id in m then reply == Refused(AlreadyExists) && m' == m
      else reply == Stored(job) && m' == m[job.id := job]
    case Change(id, u) =>
      if id !in m then reply == Refused(NotFound) && m' == m
      else (match Apply(u, m[id])
            case Ok(j) => reply == Stored(j) && m' == m[id := j]
            case Err(e) => reply == Refused(e) && m' == m)
    case Claim(now, limit, _) =>
      reply.Claimed? && ClaimContract(m, now, limit, m', reply.jobs)
    case Prune(_) =>
      reply.Removed? && reply.count + |m'| == |m| && PruneContract(m, m')
  }
}

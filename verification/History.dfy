/** What a stored job says about its past: every field is what the accepted calls on the job, seen from outside, last
    said about it, in every run of either store. */
module History {
  import opened Jobs
  import opened Wrappers
  import MemoryStores
  import RedisStores
  import Refinement
  import Watch

  // ---------------------------------------------------------------------------------------------
  // The story of a job, from calls and replies

  /** What happened to a job: it was made, an update on it was accepted, or a claim picked it. */
  datatype Act = Made(job: Job) | Told(update: Update) | Picked(now: int)

  ghost predicate Returns(jobs: seq<Job>, id: string) {
    exists i :: 0 <= i < |jobs| && jobs[i].id == id
  }

  /** What a call and its reply say about the job `id`. */
  ghost function ActOn(op: Op, reply: Reply, id: string): Option<Act> {
    match op
    case Create(job) => if reply.Stored? && job.id == id then Some(Made(job)) else None
    case Change(target, update) => if reply.Stored? && target == id then Some(Told(update)) else None
    case Claim(now, _, _) => if reply.Claimed? && Returns(reply.jobs, id) then Some(Picked(now)) else None
    case Prune(_) => None
  }

  /** The acts on the job since it was last made. */
  ghost function Story(ops: seq<Op>, replies: seq<Reply>, id: string): seq<Act>
    requires |replies| == |ops|
    decreases |ops|
  {
    if ops == [] then []
    else
      var n := |ops| - 1;
      Continued(Story(ops[..n], replies[..n], id), ActOn(ops[n], replies[n], id))
  }

  function Continued(story: seq<Act>, act: Option<Act>): seq<Act> {
    match act
    case None => story
    case Some(Made(job)) => [Made(job)]
    case Some(a) => story + [a]
  }

  // ---------------------------------------------------------------------------------------------
  // What each field should be, field by field

  /** The status the last act gave. */
  function StatusOf(act: Act): Status {
    match act
    case Made(job) => job.status
    case Picked(_) => Running
    case Told(MarkSucceeded(_, _)) => Succeeded
    case Told(MarkFailed(_, _)) => Failed
    case Told(Cancel(_)) => Canceled
    case Told(MarkRetry(_, _, _)) => Scheduled
    case Told(Retry(_)) => Queued
  }

  /** When the last act was. */
  function TimeOf(act: Act): int {
    match act
    case Made(job) => job.updatedAt
    case Picked(now) => now
    case Told(update) => update.now
  }

  /** The last result reported, unless an admin retry dropped it. */
  function ResultIn(story: seq<Act>): string {
    if story == [] then ""
    else match story[|story| - 1]
      case Made(job) => job.result
      case Told(MarkSucceeded(result, _)) => result
      case Told(Retry(_)) => ""
      case _ => ResultIn(story[..|story| - 1])
  }

  /** The last reason given for a failure, unless a success or an admin retry dropped it. */
  function ErrorIn(story: seq<Act>): string {
    if story == [] then ""
    else match story[|story| - 1]
      case Made(job) => job.lastError
      case Told(MarkRetry(reason, _, _)) => reason
      case Told(MarkFailed(reason, _)) => reason
      case Told(MarkSucceeded(_, _)) => ""
      case Told(Retry(_)) => ""
      case _ => ErrorIn(story[..|story| - 1])
  }

  /** When the job came to an end, unless it was rescheduled since. */
  function EndIn(story: seq<Act>): Option<int> {
    if story == [] then None
    else match story[|story| - 1]
      case Made(job) => job.completedAt
      case Told(MarkSucceeded(_, now)) => Some(now)
      case Told(MarkFailed(_, now)) => Some(now)
      case Told(Cancel(now)) => Some(now)
      case Told(MarkRetry(_, _, _)) => None
      case Told(Retry(_)) => None
      case Picked(_) => EndIn(story[..|story| - 1])
  }

  /** When it was last claimed, unless an admin retry came since. */
  function StartIn(story: seq<Act>): Option<int> {
    if story == [] then None
    else match story[|story| - 1]
      case Made(job) => job.startedAt
      case Picked(now) => Some(now)
      case Told(Retry(_)) => None
      case _ => StartIn(story[..|story| - 1])
  }

  /** From when on it could last be claimed. */
  function AvailableIn(story: seq<Act>): int {
    if story == [] then 0
    else match story[|story| - 1]
      case Made(job) => job.availableAt
      case Told(MarkRetry(_, runAt, _)) => runAt
      case Told(Retry(now)) => now
      case _ => AvailableIn(story[..|story| - 1])
  }

  /** How often it was claimed since it was made or retried by an admin, on top of what it was made with. */
  function AttemptsIn(story: seq<Act>): int {
    if story == [] then 0
    else match story[|story| - 1]
      case Made(job) => job.attempt
      case Picked(_) => AttemptsIn(story[..|story| - 1]) + 1
      case Told(Retry(_)) => 0
      case _ => AttemptsIn(story[..|story| - 1])
  }

  /** What never changes. */
  ghost predicate SameOrigin(j: Job, made: Job) {
    && j.id == made.id && j.kind == made.kind && j.queue == made.queue
    && j.payload == made.payload && j.metadata == made.metadata
    && j.maxAttempts == made.maxAttempts && j.timeout == made.timeout && j.createdAt == made.createdAt
  }

  /** The job agrees with its story. A pending status may have turned from scheduled to queued meanwhile. */
  ghost predicate Tells(story: seq<Act>, j: Job) {
    && story != [] && story[0].Made? && SameOrigin(j, story[0].job)
    && (j.status == StatusOf(story[|story| - 1]) || (j.status == Queued && StatusOf(story[|story| - 1]) == Scheduled))
    && j.result == ResultIn(story) && j.lastError == ErrorIn(story)
    && j.completedAt == EndIn(story) && j.startedAt == StartIn(story)
    && j.availableAt == AvailableIn(story) && j.attempt == AttemptsIn(story)
    && (j.updatedAt == TimeOf(story[|story| - 1]) || j.status == Queued)
  }

  // ---------------------------------------------------------------------------------------------
  // One call

  lemma MadeTells(job: Job)
    ensures Tells([Made(job)], job)
  {
  }

  lemma UpdateTells(story: seq<Act>, j: Job, u: Update)
    requires Tells(story, j) && Apply(u, j).Ok?
    ensures Tells(story + [Told(u)], Apply(u, j).value)
  {
    var longer := story + [Told(u)];
    assert longer[..|story|] == story && longer[|story|] == Told(u) && longer[0] == story[0];
  }

  lemma ClaimTells(story: seq<Act>, before: Job, after: Job, now: int)
    requires Tells(story, before) && HasBegun(before, after, now)
    ensures Tells(story + [Picked(now)], after)
  {
    var longer := story + [Picked(now)];
    assert longer[..|story|] == story && longer[|story|] == Picked(now) && longer[0] == story[0];
  }

  lemma PromotionTells(story: seq<Act>, j: Job, now: int)
    requires Tells(story, j) && j.status.IsPending()
    ensures Tells(story, j.(status := Queued, updatedAt := now))
  {
  }

  lemma CallTells(m: Store, op: Op, reply: Reply, m': Store, id: string, story: seq<Act>)
    requires CallContract(m, op, reply, m') && Keyed(m)
    requires id in m ==> Tells(story, m[id])
    ensures id in m' ==> Tells(Continued(story, ActOn(op, reply, id)), m'[id])
    ensures Keyed(m')
  {
    hide Tells, ClaimContract;
    match op
    case Create(job) => MadeTells(job);
    case Change(target, u) =>
      hide Apply;
      if target == id && id in m && Apply(u, m[id]).Ok? {
        UpdateTells(story, m[id], u);
      }
    case Claim(now, limit, _) =>
      ClaimCallTells(m, now, limit, reply, m', id, story);
    case Prune(_) =>
  }

  lemma ClaimCallTells(m: Store, now: int, limit: int, reply: Reply, m': Store, id: string, story: seq<Act>)
    requires reply.Claimed? && ClaimContract(m, now, limit, m', reply.jobs) && Keyed(m)
    requires id in m ==> Tells(story, m[id])
    ensures id in m' ==> Tells(if Returns(reply.jobs, id) then story + [Picked(now)] else story, m'[id])
    ensures Keyed(m')
  {
    hide Tells, HasBegun;
    ClaimKeepsKeys(m, now, limit, m', reply.jobs);
    if id in m' {
      if Returns(reply.jobs, id) {
        var i :| 0 <= i < |reply.jobs| && reply.jobs[i].id == id;
        ClaimTells(story, m[id], m'[id], now);
      } else if m'[id] != m[id] {
        PromotionTells(story, m[id], now);
      }
    }
  }

  lemma ClaimKeepsKeys(m: Store, now: int, limit: int, m': Store, claimed: seq<Job>)
    requires ClaimContract(m, now, limit, m', claimed) && Keyed(m)
    ensures Keyed(m')
  {
    forall id | id in m'
      ensures m'[id].id == id
    {
      if i :| 0 <= i < |claimed| && claimed[i].id == id {
      }
    }
  }

  // ---------------------------------------------------------------------------------------------
  // Whole runs

  /** In every run of the in-memory store every stored job agrees with its story. */
  lemma {:induction false} MemoryTells(ops: seq<Op>, id: string)
    ensures var m := Refinement.MemoryRun(map[], ops);
            id in m ==> Tells(Story(ops, Refinement.MemoryReplies(map[], ops), id), m[id])
    ensures Keyed(Refinement.MemoryRun(map[], ops))
    decreases |ops|
  {
    hide Tells, CallContract, ActOn;
    if ops != [] {
      var n := |ops| - 1;
      var before, op := ops[..n], ops[n];
      MemoryTells(before, id);
      assert ops == before + [op];
      Refinement.MemoryOneMore(map[], before, op);
      var m := Refinement.MemoryRun(map[], before);
      MemoryStores.StepMeetsContract(m, op);
      var replies := Refinement.MemoryReplies(map[], ops);
      assert replies[..n] == Refinement.MemoryReplies(map[], before);
      hide MemoryStores.Step;
      CallTells(m, op, replies[n], Refinement.MemoryRun(map[], ops), id, Story(before, replies[..n], id));
    }
  }

  /** In every run of the Redis store every stored job agrees with its story. */
  lemma {:induction false} RedisTells(ops: seq<Op>, id: string)
    ensures var m := RedisStores.RedisRun(RedisStores.EMPTY, ops).jobs;
            id in m ==> Tells(Story(ops, RedisStores.Replies(RedisStores.EMPTY, ops), id), m[id])
    decreases |ops|
  {
    hide Tells, CallContract, ActOn;
    if ops != [] {
      var n := |ops| - 1;
      var before, op := ops[..n], ops[n];
      RedisTells(before, id);
      assert ops == before + [op];
      RedisStores.OneMoreCall(RedisStores.EMPTY, before, op);
      var r := RedisStores.RedisRun(RedisStores.EMPTY, before);
      RedisStores.EmptyAgrees();
      RedisStores.ReachableIndexesAgree(RedisStores.EMPTY, before);
      RedisStores.RedisMeetsContract(r, op);
      var replies := RedisStores.Replies(RedisStores.EMPTY, ops);
      assert replies[..n] == RedisStores.Replies(RedisStores.EMPTY, before);
      hide RedisStores.RedisStep;
      var after := RedisStores.RedisRun(RedisStores.EMPTY, ops);
      CallTells(r.jobs, op, replies[n], after.jobs, id, Story(before, replies[..n], id));
    }
  }

  /** ... and so it does under any interleaving of optimistic clients and scripts, with the story told by the calls as
      they took effect. */
  lemma ConcurrentTells(es: seq<Watch.Event>, id: string)
    ensures var s := Watch.RunNet(es);
            id in s.server.jobs ==>
              Tells(Story(Watch.OpsOf(s.log), Watch.RepliesOf(s.log), id), s.server.jobs[id])
  {
    hide Tells;
    Watch.Linearizable(es);
    RedisTells(Watch.OpsOf(Watch.RunNet(es).log), id);
  }

  /** What it means for a job to have ended: it succeeded exactly if the last accepted act on it says so, with that
      act's result and time, and likewise for a failure and a cancellation. */
  lemma OutcomeIff(story: seq<Act>, j: Job)
    requires Tells(story, j)
    ensures var last := story[|story| - 1];
            && (j.status == Succeeded <==>
                  (last.Told? && last.update.MarkSucceeded?) || (last.Made? && last.job.status == Succeeded))
            && (j.status == Failed <==>
                  (last.Told? && last.update.MarkFailed?) || (last.Made? && last.job.status == Failed))
            && (j.status == Canceled <==>
                  (last.Told? && last.update.Cancel?) || (last.Made? && last.job.status == Canceled))
            && (last.Told? && last.update.MarkSucceeded? ==>
                  j.result == last.update.result && j.lastError == "" && j.completedAt == Some(last.update.now))
            && (last.Told? && last.update.MarkFailed? ==>
                  j.lastError == last.update.reason && j.completedAt == Some(last.update.now))
            && (last.Told? && last.update.Cancel? ==> j.completedAt == Some(last.update.now))
  {
  }

  /** Which refusal goes with which job. */
  lemma RefusalIff(m: Store, id: string, u: Update, reply: Reply, m': Store)
    requires CallContract(m, Change(id, u), reply, m')
    ensures reply == Refused(NotFound) <==> id !in m
    ensures reply == Refused(CannotCancelRunning) <==> id in m && u.Cancel? && m[id].status == Running
    ensures reply == Refused(AlreadyTerminal) <==>
            id in m && u.Cancel? && (m[id].status == Succeeded || m[id].status == Failed || m[id].status == Canceled)
    ensures reply == Refused(NotRetryable) <==>
            id in m && u.Retry? && m[id].status != Failed && m[id].status != Canceled
    ensures reply.Refused? ==> m' == m
  {
  }
}

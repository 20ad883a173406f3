/** What the outcome of an attempt does to the stored job, over every run of the managers: results are kept, failures
    are retried after the backoff until the budget is spent, and what has ended stays ended until an admin retries it.
    */
module Verdicts {
  import opened Jobs
  import opened Wrappers
  import opened Machine
  import opened Managers
  import opened Ownership
  import Progress
  import Backoff

  // ---------------------------------------------------------------------------------------------
  // The end of an attempt

  /** The two jobs differ at most in what the end of an attempt may change. */
  ghost predicate SameAttempt(before: Job, after: Job) {
    && after.id == before.id && after.kind == before.kind && after.queue == before.queue
    && after.payload == before.payload && after.metadata == before.metadata
    && after.attempt == before.attempt && after.maxAttempts == before.maxAttempts && after.timeout == before.timeout
    && after.createdAt == before.createdAt && after.startedAt == before.startedAt
  }

  /** What a verdict at time `now` makes of the held job. */
  ghost predicate Ended(cfg: Settings, held: Job, verdict: Verdict, now: int, after: Job) {
    && SameAttempt(held, after) && after.updatedAt == now
    && (match verdict
        case Success(result) =>
          && after.status == Succeeded && after.result == result && after.lastError == ""
          && after.completedAt == Some(now) && after.availableAt == held.availableAt
        case Failure(reason) =>
          && after.lastError == reason && after.result == held.result
          && (after.status == Failed <==> held.attempt >= held.maxAttempts)
          && (after.status != Failed ==>
                && after.status == Scheduled && after.completedAt == None
                && after.availableAt == now + RetryAfter(cfg, held.attempt))
          && (after.status == Failed ==> after.completedAt == Some(now) && after.availableAt == held.availableAt))
  }

  /** In every run the end of an attempt stores exactly what its verdict says: a success with its result; a failure
      with its reason, as failed if that was the last attempt and else scheduled for after the backoff. */
  lemma FinishMeans(ws: seq<World>, es: seq<Event>, i: nat, m: nat, k: nat, verdict: Verdict, now: int)
    requires IsRun(ws, es) && i < |es| && es[i] == Inside(m, Finish(k, verdict, now))
    ensures m in ws[i].managers && k in ws[i].managers[m].workers
    ensures var mgr := ws[i].managers[m];
            var held := mgr.workers[k];
            && Get(ws[i].store, held.id) == Some(held) && held.attempt <= held.maxAttempts
            && held.id in ws[i + 1].store && Ended(mgr.cfg, held, verdict, now, ws[i + 1].store[held.id])
            && (forall id :: id != held.id ==> Get(ws[i + 1].store, id) == Get(ws[i].store, id))
            && k !in ws[i + 1].managers[m].workers
  {
    RunKeepsInv(ws, es, i);
    var w := ws[i];
    hide Inv;
    assert Step(w, es[i], ws[i + 1]);
    Progress.WorkerHolds(w, m, k);
    FinalMeans(w.managers[m].cfg, w.managers[m].workers[k], verdict, now);
  }

  lemma FinalMeans(cfg: Settings, held: Job, verdict: Verdict, now: int)
    ensures var r := Apply(Finalise(cfg, held, verdict, now), held);
            r.Ok? && Ended(cfg, held, verdict, now, r.value)
  {
    hide RetryAfter;
  }

  /** The wait after a failure is the capped exponential of the attempts made, in whole milliseconds, if the settings
      let the doubling end within the machine range; the defaults do. */
  lemma BackoffIsExponential(cfg: Settings, attempt: int)
    requires cfg.retryBaseDelay < TWO62 && cfg.retryMaxDelay <= Backoff.Top(cfg.retryBaseDelay) && attempt >= 1
    ensures RetryAfter(cfg, attempt) == Backoff.Ideal(cfg.retryBaseDelay, cfg.retryMaxDelay, attempt) / MILLISECOND
    ensures RetryAfter(cfg, attempt) >= 0
    ensures forall later :: later >= attempt ==> RetryAfter(cfg, later) >= RetryAfter(cfg, attempt)
  {
    hide Backoff.Top, Backoff.JobDelay, Backoff.Ideal;
    Backoff.JobDelayExactIff(cfg.retryBaseDelay, cfg.retryMaxDelay);
    forall later | later >= attempt
      ensures RetryAfter(cfg, later) >= RetryAfter(cfg, attempt) >= 0
    {
      Backoff.JobDelayGrows(cfg.retryBaseDelay, cfg.retryMaxDelay, attempt, later);
    }
    assert RetryAfter(cfg, attempt) >= 0;
  }

  lemma DefaultsBackOff()
    ensures DEFAULTS.retryBaseDelay < TWO62 && DEFAULTS.retryMaxDelay <= Backoff.Top(DEFAULTS.retryBaseDelay)
  {
    hide Backoff.Top;
  }

  // ---------------------------------------------------------------------------------------------
  // What has ended stays ended

  /** A terminal job is changed by an admin retry alone. */
  lemma TerminalStep(w: World, e: Event, w': World, id: string)
    requires Inv(w) && Step(w, e, w') && id in w.store && id in w'.store && w.store[id].status.IsTerminal()
    requires !(e.AdminRetry? && e.id == id)
    ensures w'.store[id] == w.store[id]
  {
    hide Step, Inv;
    if IsClaim(e) {
      ClaimStep(w, e, w');
      ClaimLeavesTerminal(w.store, e.action.move.now, SlotsOf(w, e.m, e.action.d), w'.store, e.action.move.claimed, id);
    } else if IsChange(e) {
      ChangeStep(w, e, w');
      if IsFinish(e) {
        Progress.WorkerHolds(w, e.m, e.action.k);
      }
    } else {
      StoreKept(w, e, w', id);
    }
  }

  lemma ClaimLeavesTerminal(m: Store, now: int, limit: int, m': Store, claimed: seq<Job>, id: string)
    requires ClaimContract(m, now, limit, m', claimed) && id in m && m[id].status.IsTerminal()
    ensures id in m' && m'[id] == m[id]
  {
    if i :| 0 <= i < |claimed| && claimed[i].id == id {
    }
  }

  /** Between two moments, as long as the job is stored and no admin retries it, a job that has ended stays as it was,
      nobody holds it and no worker starts it. */
  lemma EndedForGood(ws: seq<World>, es: seq<Event>, i: nat, n: nat, id: string)
    requires IsRun(ws, es) && i <= n < |ws|
    requires forall k :: i <= k <= n ==> id in ws[k].store
    requires forall k :: i <= k < n ==> !(es[k].AdminRetry? && es[k].id == id)
    requires ws[i].store[id].status.IsTerminal()
    ensures ws[n].store[id] == ws[i].store[id]
    ensures forall p :: HeldAt(ws[n], p).Some? ==> HeldAt(ws[n], p).value.id != id
    ensures Starts(ws, es, n, id) == Starts(ws, es, i, id)
  {
    hide Inv, Step, HeldAt;
    EndedStays(ws, es, i, n, id);
    RunKeepsInv(ws, es, n);
    forall p | HeldAt(ws[n], p).Some?
      ensures HeldAt(ws[n], p).value.id != id
    {
      HeldIsStored(ws[n], p);
    }
  }

  lemma {:induction false} EndedStays(ws: seq<World>, es: seq<Event>, i: nat, n: nat, id: string)
    requires IsRun(ws, es) && i <= n < |ws|
    requires forall k :: i <= k <= n ==> id in ws[k].store
    requires forall k :: i <= k < n ==> !(es[k].AdminRetry? && es[k].id == id)
    requires ws[i].store[id].status.IsTerminal()
    ensures ws[n].store[id] == ws[i].store[id] && Starts(ws, es, n, id) == Starts(ws, es, i, id)
    decreases n
  {
    hide Inv, Step, TakesJob, RenewsJob;
    if i < n {
      EndedStays(ws, es, i, n - 1, id);
      RunKeepsInv(ws, es, n - 1);
      TerminalStep(ws[n - 1], es[n - 1], ws[n], id);
      NotStarted(ws[n - 1], es[n - 1], ws[n], id);
    }
  }

  /** A step that neither takes, makes nor retries the job leaves its count. */
  lemma NotStarted(w: World, e: Event, w': World, id: string)
    requires Inv(w) && Step(w, e, w') && id in w.store && w.store[id].status.IsTerminal()
    requires !(e.AdminRetry? && e.id == id)
    ensures !TakesJob(w, e, id) && !RenewsJob(w, e, w', id)
  {
    hide Inv, ManagerStep;
    if TakesJob(w, e, id) {
      HeadOfChannel(w, e.m);
      HeldIsStored(w, InChannel(e.m, 0));
    }
  }

  // ---------------------------------------------------------------------------------------------
  // A rescheduled job waits

  /** The event claims the job, at a time no earlier than `from`. */
  ghost predicate ClaimsFrom(e: Event, id: string, from: int) {
    && IsClaim(e) && e.action.move.now >= from
    && exists i :: 0 <= i < |e.action.move.claimed| && e.action.move.claimed[i].id == id
  }

  lemma PendingStep(w: World, e: Event, w': World, id: string)
    requires Inv(w) && Step(w, e, w') && id in w.store && id in w'.store && w.store[id].status.IsPending()
    requires !((e.AdminRetry? || e.AdminCancel?) && e.id == id)
    ensures || ClaimsFrom(e, id, w.store[id].availableAt)
            || (w'.store[id].status.IsPending() && w'.store[id].availableAt == w.store[id].availableAt)
  {
    hide Step, Inv;
    if IsClaim(e) {
      ClaimStep(w, e, w');
      ClaimTakesDue(w, e, w', id);
    } else if IsChange(e) {
      ChangeStep(w, e, w');
      if IsFinish(e) {
        Progress.WorkerHolds(w, e.m, e.action.k);
      }
    } else {
      StoreKept(w, e, w', id);
    }
  }

  lemma ClaimTakesDue(w: World, e: Event, w': World, id: string)
    requires IsClaim(e) && Counted(w, e.m, e.action.d) && id in w.store && w.store[id].status.IsPending()
    requires ClaimContract(w.store, e.action.move.now, SlotsOf(w, e.m, e.action.d), w'.store, e.action.move.claimed)
    ensures || ClaimsFrom(e, id, w.store[id].availableAt)
            || (w'.store[id].status.IsPending() && w'.store[id].availableAt == w.store[id].availableAt)
  {
    hide HasBegun;
    var claimed := e.action.move.claimed;
    if i :| 0 <= i < |claimed| && claimed[i].id == id {
      assert ClaimsFrom(e, id, w.store[id].availableAt);
    }
  }

  /** Between two moments, as long as a pending job is stored and no admin touches it, it stays pending for the same
      time or was claimed by a claim no earlier than that: after a failed attempt no other starts before the backoff
      has passed. */
  lemma {:induction false} WaitsItsTime(ws: seq<World>, es: seq<Event>, i: nat, n: nat, id: string)
    requires IsRun(ws, es) && i <= n < |ws|
    requires forall k :: i <= k <= n ==> id in ws[k].store
    requires forall k :: i <= k < n ==> !((es[k].AdminRetry? || es[k].AdminCancel?) && es[k].id == id)
    requires ws[i].store[id].status.IsPending()
    ensures || (ws[n].store[id].status.IsPending() && ws[n].store[id].availableAt == ws[i].store[id].availableAt)
            || exists k :: i <= k < n && ClaimsFrom(es[k], id, ws[i].store[id].availableAt)
    decreases n
  {
    hide Inv, Step, ClaimsFrom;
    if i < n {
      WaitsItsTime(ws, es, i, n - 1, id);
      if ws[n - 1].store[id].status.IsPending() && ws[n - 1].store[id].availableAt == ws[i].store[id].availableAt {
        RunKeepsInv(ws, es, n - 1);
        PendingStep(ws[n - 1], es[n - 1], ws[n], id);
      }
    }
  }

  // ---------------------------------------------------------------------------------------------
  // Starts are receives

  /** A worker receives the job. */
  ghost predicate TakesJob(w: World, e: Event, id: string) {
    e.Inside? && e.action.Receive? && e.m in w.managers && w.managers[e.m].channel != []
        && w.managers[e.m].channel[0].id == id
  }

  /** The job is made, or an admin retry on it is accepted. */
  ghost predicate RenewsJob(w: World, e: Event, w': World, id: string) {
    || (id !in w.store && id in w'.store)
    || (e.AdminRetry? && e.id == id && id in w.store
          && (w.store[id].status == Failed || w.store[id].status == Canceled))
  }

  /** How often workers received the job since it was made or last retried by an admin. */
  ghost function Starts(ws: seq<World>, es: seq<Event>, n: nat, id: string): nat
    requires n <= |es| < |ws|
  {
    if n == 0 then 0
    else if RenewsJob(ws[n - 1], es[n - 1], ws[n], id) then 0
    else Starts(ws, es, n - 1, id) + if TakesJob(ws[n - 1], es[n - 1], id) then 1 else 0
  }

  lemma StepCounts(w: World, e: Event, w': World, id: string)
    requires Step(w, e, w') && id in w'.store
    ensures StartsOf(w', id) ==
            if RenewsJob(w, e, w', id) then 0 else StartsOf(w, id) + if TakesJob(w, e, id) then 1 else 0
  {
    hide DispatchStep, ClaimContract;
    if e.Inside? && e.action.Dispatch? {
      DispatchCounts(w, e.m, e.action.d, e.action.move, w');
    }
  }

  lemma DispatchCounts(w: World, m: nat, d: nat, move: Move, w': World)
    requires m in w.managers && ManagerStep(w, m, w.managers[m], Dispatch(d, move), w')
    ensures w'.starts == w.starts && w'.store.Keys == w.store.Keys
  {
  }

  lemma {:induction false} StartsAreCounted(ws: seq<World>, es: seq<Event>, n: nat, id: string)
    requires IsRun(ws, es) && n < |ws| && id in ws[n].store
    ensures StartsOf(ws[n], id) == Starts(ws, es, n, id)
    decreases n
  {
    hide Step, StartsOf;
    if n > 0 {
      StepCounts(ws[n - 1], es[n - 1], ws[n], id);
      if id in ws[n - 1].store {
        StartsAreCounted(ws, es, n - 1, id);
      }
    }
  }

  /** The retry budget in terms of what workers do: between admin retries they receive a job at most as often as its
      budget allows, and its status bounds its attempts. */
  lemma WorkersKeepBudget(ws: seq<World>, es: seq<Event>, n: nat, id: string)
    requires IsRun(ws, es) && n < |ws| && id in ws[n].store
    ensures Starts(ws, es, n, id) <= ws[n].store[id].attempt <= ws[n].store[id].maxAttempts
  {
    hide Step, StartsOf;
    StartsAreCounted(ws, es, n, id);
    RetryBudget(ws, es, n, id);
  }
}

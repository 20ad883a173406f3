/** Further guarantees over runs: without losses every running job is held, and every claim or finish of a job uses up
    a part of its budget until the job is terminal. */
module Progress {
  import opened Jobs
  import opened Wrappers
  import opened Managers
  import opened Ownership

  // ---------------------------------------------------------------------------------------------
  // Running jobs have a holder as long as nothing is lost

  ghost predicate RunningAreHeld(w: World) {
    forall id :: id in w.store && w.store[id].status.Running? ==> exists p :: HeldAt(w, p) == Some(w.store[id])
  }

  /** Outside of claims no job becomes running. */
  lemma RunningBefore(w: World, e: Event, w': World, id: string)
    requires Inv(w) && Step(w, e, w') && !IsClaim(e)
    requires id in w'.store && w'.store[id].status.Running?
    ensures Get(w.store, id) == Some(w'.store[id])
    ensures Finishing(w, e) && (IsFinish(e) ==> Target(w, e) != id)
  {
    hide Step, Inv, InBudget;
    if IsChange(e) {
      ChangeStep(w, e, w');
      if IsFinish(e) {
        WorkerHolds(w, e.m, e.action.k);
      }
    } else {
      StoreKept(w, e, w', id);
    }
  }

  lemma WorkerHolds(w: World, m: nat, k: nat)
    requires Inv(w) && m in w.managers && k in w.managers[m].workers
    ensures var j := w.managers[m].workers[k];
            j.id in w.store && w.store[j.id] == j && j.status.Running? && InBudget(j)
  {
    hide Inv, InBudget;
    assert HeldAt(w, AtWorker(m, k)) == Some(w.managers[m].workers[k]);
    HeldIsStored(w, AtWorker(m, k));
  }

  lemma HolderAfterSend(w: World, m: nat, d: nat, w': World, p: Place) returns (p': Place)
    requires m in w.managers && CanSend(w.managers[m], d) && w' == With(w, m, Sent(w.managers[m], d))
    requires HeldAt(w, p).Some?
    ensures HeldAt(w', p') == HeldAt(w, p)
  {
    p' := p;
    if p.Unsent? && p.m == m && p.d == d {
      p' := if p.i == 0 then InChannel(m, |w.managers[m].channel|) else Unsent(m, d, p.i - 1);
    }
  }

  lemma HolderAfterReceive(w: World, m: nat, k: nat, w': World, p: Place) returns (p': Place)
    requires m in w.managers && ManagerStep(w, m, w.managers[m], Receive(k), w')
    requires HeldAt(w, p).Some?
    ensures HeldAt(w', p') == HeldAt(w, p)
  {
    p' := p;
    if p.InChannel? && p.m == m {
      p' := if p.i == 0 then AtWorker(m, k) else InChannel(m, p.i - 1);
    }
  }

  lemma ClaimedPlaces(w: World, m: nat, d: nat, now: int, claimed: seq<Job>, w': World, p: Place)
    requires Step(w, Inside(m, Dispatch(d, ClaimJobs(now, claimed))), w')
    ensures HeldAt(w, p).Some? ==> HeldAt(w', p) == HeldAt(w, p)
    ensures p.Unsent? && p.m == m && p.d == d && p.i < |claimed| ==> HeldAt(w', p) == Some(claimed[p.i])
  {
    hide ClaimContract;
  }

  /** Where a job that runs after a claim comes from: the claim, or before. */
  lemma StartedOrBefore(m: Store, now: int, limit: int, m': Store, claimed: seq<Job>, id: string) returns (i: nat)
    requires ClaimContract(m, now, limit, m', claimed) && id in m' && m'[id].status.Running?
    ensures id in m
    ensures if i < |claimed| then claimed[i] == m'[id] else m[id] == m'[id]
  {
    i := |claimed|;
    if n :| 0 <= n < |claimed| && claimed[n].id == id {
      i := n;
    }
  }

  lemma HolderAfterClaim(w: World, m: nat, d: nat, now: int, claimed: seq<Job>, w': World, id: string)
    returns (p': Place)
    requires Inv(w) && RunningAreHeld(w) && Step(w, Inside(m, Dispatch(d, ClaimJobs(now, claimed))), w')
    requires id in w'.store && w'.store[id].status.Running?
    ensures HeldAt(w', p') == Some(w'.store[id])
  {
    hide Inv, HeldAt, Step, ClaimContract;
    ClaimStep(w, Inside(m, Dispatch(d, ClaimJobs(now, claimed))), w');
    var i := StartedOrBefore(w.store, now, SlotsOf(w, m, d), w'.store, claimed, id);
    p' := Unsent(m, d, i);
    if i >= |claimed| {
      p' :| HeldAt(w, p') == Some(w.store[id]);
    }
    ClaimedPlaces(w, m, d, now, claimed, w', p');
  }

  lemma HolderAfter(w: World, e: Event, w': World, id: string) returns (p': Place)
    requires Inv(w) && RunningAreHeld(w) && Step(w, e, w') && !Loses(e)
    requires id in w'.store && w'.store[id].status.Running?
    ensures HeldAt(w', p') == Some(w'.store[id])
  {
    hide Inv, HeldAt, ManagerStep;
    if IsClaim(e) {
      var move := e.action.move;
      p' := HolderAfterClaim(w, e.m, e.action.d, move.now, move.claimed, w', id);
    } else {
      RunningBefore(w, e, w', id);
      StoredUnderId(w, id);
      var p :| HeldAt(w, p) == Some(w.store[id]);
      if e.Inside? {
        p' := HolderInside(w, e.m, e.action, w', p);
      } else {
        p' := p;
        HolderOutside(w, e, w', p);
      }
    }
  }

  lemma StoredUnderId(w: World, id: string)
    requires Inv(w) && id in w.store
    ensures w.store[id].id == id
  {
    hide SoleHolders, HeldAreRunning, StartsCounted, InCapacity, InBudget;
  }

  lemma HolderOutside(w: World, e: Event, w': World, p: Place)
    requires Step(w, e, w') && !e.Inside? && HeldAt(w, p).Some?
    ensures HeldAt(w', p) == HeldAt(w, p)
  {
  }

  lemma HolderInside(w: World, m: nat, action: Action, w': World, p: Place) returns (p': Place)
    requires m in w.managers && ManagerStep(w, m, w.managers[m], action, w') && HeldAt(w, p).Some?
    requires !Loses(Inside(m, action)) && !(action.Dispatch? && action.move.ClaimJobs?)
    requires action.Finish? ==>
              action.k in w.managers[m].workers && w.managers[m].workers[action.k].id != HeldAt(w, p).value.id
    ensures HeldAt(w', p') == HeldAt(w, p)
  {
    hide HeldAt;
    if action.Receive? {
      p' := HolderAfterReceive(w, m, action.k, w', p);
    } else if action.Dispatch? && action.move.Send? {
      p' := HolderAfterSend(w, m, action.d, w', p);
    } else {
      p' := p;
      HolderStays(w, m, action, w', p);
    }
  }

  lemma HolderStays(w: World, m: nat, action: Action, w': World, p: Place)
    requires m in w.managers && ManagerStep(w, m, w.managers[m], action, w') && HeldAt(w, p).Some?
    requires !Loses(Inside(m, action)) && !action.Receive?
    requires !(action.Dispatch? && (action.move.ClaimJobs? || action.move.Send?))
    requires action.Finish? ==>
              action.k in w.managers[m].workers && w.managers[m].workers[action.k].id != HeldAt(w, p).value.id
    ensures HeldAt(w', p) == HeldAt(w, p)
  {
    hide DispatchStep, ClaimContract, BuildJob, Updated, Finalise;
    if action.Dispatch? {
      HolderStaysInRound(w, m, action.d, action.move, w', p);
    }
  }

  lemma HolderStaysInRound(w: World, m: nat, d: nat, move: Move, w': World, p: Place)
    requires m in w.managers && ManagerStep(w, m, w.managers[m], Dispatch(d, move), w') && HeldAt(w, p).Some?
    requires move.CountSlots? || move.Skip? || move.Exit?
    ensures HeldAt(w', p) == HeldAt(w, p)
  {
  }

  /** In a run without lost replies, abandoned sends or crashes, a job is running exactly when somebody holds it. */
  lemma {:induction false} RunningIffHeld(ws: seq<World>, es: seq<Event>, i: nat, id: string)
    requires IsRun(ws, es) && i < |ws|
    requires forall k :: 0 <= k < i ==> !Loses(es[k])
    ensures RunningAreHeld(ws[i])
    ensures id in ws[i].store ==>
              (ws[i].store[id].status.Running? <==> exists p :: HeldAt(ws[i], p) == Some(ws[i].store[id]))
    decreases i
  {
    RunKeepsInv(ws, es, i);
    if i > 0 {
      RunningIffHeld(ws, es, i - 1, id);
      RunKeepsInv(ws, es, i - 1);
      forall k | k in ws[i].store && ws[i].store[k].status.Running?
        ensures exists p :: HeldAt(ws[i], p) == Some(ws[i].store[k])
      {
        var p := HolderAfter(ws[i - 1], es[i - 1], ws[i], k);
      }
    }
  }

  // ---------------------------------------------------------------------------------------------
  // Every change of a job spends budget

  /** What is left of a job's budget: two units per attempt not yet begun, one for the attempt in progress. */
  ghost function Rank(j: Job): (r: int)
    requires InBudget(j)
    ensures r >= 0
    ensures r == 0 <==> j.status.IsTerminal()
    ensures r <= 2 * j.maxAttempts
  {
    if j.status.IsTerminal() then 0
    else if j.status.Running? then 2 * (j.maxAttempts - j.attempt) + 1
    else 2 * (j.maxAttempts - j.attempt)
  }

  predicate Promoted(a: Job, b: Job) {
    a.status.IsPending() && b == a.(status := Queued, updatedAt := b.updatedAt)
  }

  /** Whether a step changed the job other than by promotion. */
  function Cost(a: Job, b: Job): nat {
    if b == a || Promoted(a, b) then 0 else 1
  }

  lemma FinishSpends(cfg: Settings, j: Job, verdict: Verdict, now: int)
    requires InBudget(j) && j.status.Running?
    ensures Apply(Finalise(cfg, j, verdict, now), j).Ok?
    ensures InBudget(Apply(Finalise(cfg, j, verdict, now), j).value)
    ensures Rank(Apply(Finalise(cfg, j, verdict, now), j).value) < Rank(j)
  {
  }

  lemma CancelSpends(j: Job, now: int)
    requires InBudget(j) && Apply(Cancel(now), j).Ok?
    ensures InBudget(Apply(Cancel(now), j).value) && Rank(Apply(Cancel(now), j).value) < Rank(j)
  {
  }

  lemma ClaimSpends(m: Store, now: int, limit: int, m': Store, claimed: seq<Job>, id: string)
    requires ClaimContract(m, now, limit, m', claimed)
    requires id in m && m[id].id == id && InBudget(m[id]) && InBudget(m'[id])
    ensures Cost(m[id], m'[id]) + Rank(m'[id]) <= Rank(m[id])
  {
    if i :| 0 <= i < |claimed| && claimed[i].id == id {
      BegunIs(m[id], m'[id], now);
    }
  }

  /** A step leaves a job as it is, promotes it, or spends some of its budget; only an admin retry gives budget back. */
  lemma StepSpends(w: World, e: Event, w': World, id: string)
    requires Inv(w) && Inv(w') && Step(w, e, w') && id in w.store && id in w'.store
    requires !(e.AdminRetry? && e.id == id)
    ensures Cost(w.store[id], w'.store[id]) + Rank(w'.store[id]) <= Rank(w.store[id])
  {
    hide Step, SoleHolders, HeldAreRunning, StartsCounted, InCapacity, ClaimContract, Finalise, Promoted, Rank,
         InBudget;
    if IsClaim(e) {
      ClaimStep(w, e, w');
      var move := e.action.move;
      ClaimSpends(w.store, move.now, SlotsOf(w, e.m, e.action.d), w'.store, move.claimed, id);
    } else if IsChange(e) {
      ChangeStep(w, e, w');
      ChangeSpends(w, e, id);
    } else {
      StoreKept(w, e, w', id);
    }
  }

  lemma ChangeSpends(w: World, e: Event, id: string)
    requires Inv(w) && id in w.store && IsChange(e) && Finishing(w, e)
    requires !(e.AdminRetry? && e.id == id)
    ensures var j := Updated(w.store, Target(w, e), ChangeOf(w, e))[id];
            InBudget(j) && Cost(w.store[id], j) + Rank(j) <= Rank(w.store[id])
  {
    hide SoleHolders, HeldAreRunning, StartsCounted, InCapacity;
    if Target(w, e) == id {
      if IsFinish(e) {
        WorkerHolds(w, e.m, e.action.k);
        FinishSpends(w.managers[e.m].cfg, w.store[id], e.action.verdict, e.action.now);
      } else if Apply(Cancel(e.now), w.store[id]).Ok? {
        CancelSpends(w.store[id], e.now);
      }
    }
  }

  /** How many of the steps `lo .. hi` changed the job other than by promotion. */
  ghost function Changes(ws: seq<World>, id: string, lo: nat, hi: nat): nat
    requires lo <= hi < |ws|
    requires forall i :: lo <= i <= hi ==> id in ws[i].store
    decreases hi - lo
  {
    if lo == hi then 0
    else
      Changes(ws, id, lo, hi - 1) + Cost(ws[hi - 1].store[id], ws[hi].store[id])
  }

  /** Between two moments without an admin retry a job changes at most as often as its budget allows, at most twice per
      attempt, and once nothing is left it is terminal. */
  lemma {:induction false} BoundedChanges(ws: seq<World>, es: seq<Event>, id: string, lo: nat, hi: nat)
    requires IsRun(ws, es) && lo <= hi < |ws|
    requires forall i :: lo <= i <= hi ==> id in ws[i].store
    requires forall i :: lo <= i < hi ==> !(es[i].AdminRetry? && es[i].id == id)
    ensures InBudget(ws[lo].store[id]) && InBudget(ws[hi].store[id])
    ensures Changes(ws, id, lo, hi) + Rank(ws[hi].store[id]) <= Rank(ws[lo].store[id])
    ensures Rank(ws[lo].store[id]) <= 2 * ws[lo].store[id].maxAttempts
    ensures Changes(ws, id, lo, hi) == Rank(ws[lo].store[id]) ==> ws[hi].store[id].status.IsTerminal()
    decreases hi - lo
  {
    hide Step, SoleHolders, HeldAreRunning, StartsCounted, InCapacity, Init, Promoted;
    RunKeepsInv(ws, es, lo);
    RunKeepsInv(ws, es, hi);
    if lo < hi {
      BoundedChanges(ws, es, id, lo, hi - 1);
      RunKeepsInv(ws, es, hi - 1);
      StepSpends(ws[hi - 1], es[hi - 1], ws[hi], id);
    }
  }
}

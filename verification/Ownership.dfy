/** Single ownership and the retry budget over every run of the managers. */
module Ownership {
  import opened Jobs
  import opened Wrappers
  import opened Managers

  // ---------------------------------------------------------------------------------------------
  // Changes of the store that leave the holders alone

  /** A change that keeps every held job as it is, and every other one within budget, keeps the invariant. */
  lemma StoreChanges(w: World, w': World)
    requires Inv(w)
    requires w'.managers == w.managers
    requires Keyed(w'.store) && forall id :: id in w'.store ==> InBudget(w'.store[id])
    requires forall id :: id in w.store && w.store[id].status.Running? ==>
               Get(w'.store, id) == Some(w.store[id]) && StartsOf(w', id) == StartsOf(w, id)
    requires forall id :: id in w'.store ==> StartsOf(w', id) <= w'.store[id].attempt
    ensures Inv(w')
  {
    forall p ensures HeldAt(w', p) == HeldAt(w, p) {
    }
  }

  /** A move of held jobs between places: each place now holds what another one held. */
  lemma Moves(w: World, w': World, back: Place -> Place)
    requires Inv(w)
    requires w'.store == w.store
    requires forall p :: HeldAt(w', p).Some? ==> HeldAt(w', p) == HeldAt(w, back(p))
    requires forall p, q :: HeldAt(w', p).Some? && HeldAt(w', q).Some? && back(p) == back(q) ==> p == q
    ensures SoleHolders(w') && HeldAreRunning(w')
  {
    forall p, q | HeldAt(w', p).Some? && HeldAt(w', q).Some? && HeldAt(w', p).value.id == HeldAt(w', q).value.id
      ensures p == q
    {
      assert HeldAt(w, back(p)) == HeldAt(w', p) && HeldAt(w, back(q)) == HeldAt(w', q);
    }
    forall p | HeldAt(w', p).Some?
      ensures Get(w'.store, HeldAt(w', p).value.id) == HeldAt(w', p) && HeldAt(w', p).value.status.Running?
    {
      assert HeldAt(w, back(p)) == HeldAt(w', p);
    }
  }

  lemma UpdatedInBudget(j: Job, u: Update)
    requires InBudget(j) && Apply(u, j).Ok?
    requires u.Cancel? || u.Retry?
    ensures InBudget(Apply(u, j).value)
  {
  }

  lemma AdminKeepsInv(w: World, id: string, u: Update, w': World)
    requires Inv(w) && (u.Cancel? || u.Retry?)
    requires id in w.store && Apply(u, w.store[id]).Ok?
    requires w' == w.(store := Updated(w.store, id, u), starts := if u.Retry? then w.starts[id := 0] else w.starts)
    ensures Inv(w')
  {
    UpdatedInBudget(w.store[id], u);
    StoreChanges(w, w');
  }

  lemma CreateKeepsInv(w: World, j: Job, now: int, w': World)
    requires Inv(w) && Unclaimed(j, now) && j.id !in w.store
    requires w' == w.(store := w.store[j.id := j], starts := w.starts[j.id := 0])
    ensures Inv(w')
  {
    StoreChanges(w, w');
  }

  lemma PruneKeepsInv(w: World, w': World)
    requires Inv(w) && PruneContract(w.store, w'.store) && w' == w.(store := w'.store)
    ensures Inv(w')
  {
    assert forall id :: id in w'.store ==> id in w.store && w'.store[id] == w.store[id];
    StoreChanges(w, w');
  }

  /** Letting go of holders, or changing nothing a holder sees, keeps the invariant. */
  lemma FewerHolders(w: World, w': World)
    requires Inv(w)
    requires w'.store == w.store && w'.starts == w.starts
    requires forall p :: HeldAt(w', p).Some? ==> HeldAt(w', p) == HeldAt(w, p)
    requires forall m :: m in w'.managers ==> InCapacity(w'.managers[m])
    ensures Inv(w')
  {
    Moves(w, w', p => p);
  }

  // ---------------------------------------------------------------------------------------------
  // Claims

  lemma StartedInBudget(j: Job, now: int)
    requires InBudget(j) && j.status.IsPending()
    ensures InBudget(StartAttempt(j, now))
    ensures InBudget(j.(status := Queued, updatedAt := now))
  {
  }

  lemma ClaimStoreAt(m: Store, now: int, limit: int, m': Store, claimed: seq<Job>, id: string)
    requires ClaimContract(m, now, limit, m', claimed)
    requires id in m && m[id].id == id && InBudget(m[id])
    ensures id in m' && m'[id].id == id && InBudget(m'[id]) && m[id].attempt <= m'[id].attempt
    ensures m[id].status.Running? ==> m'[id] == m[id]
  {
    if m[id].status.IsPending() {
      StartedInBudget(m[id], now);
    }
    if i :| 0 <= i < |claimed| && claimed[i].id == id {
      BegunIs(m[id], m'[id], now);
    }
  }

  /** As far as the store goes, a claim keeps the invariant before anybody holds what it started. */
  lemma ClaimChangesStore(w: World, now: int, limit: int, store': Store, claimed: seq<Job>)
    requires Inv(w) && ClaimContract(w.store, now, limit, store', claimed)
    ensures Inv(w.(store := store'))
  {
    forall id | id in store'
      ensures id in w.store && store'[id].id == id && InBudget(store'[id]) && w.store[id].attempt <= store'[id].attempt
      ensures w.store[id].status.Running? ==> store'[id] == w.store[id]
    {
      ClaimStoreAt(w.store, now, limit, store', claimed, id);
    }
    StoreChanges(w, w.(store := store'));
  }

  /** A started job that nobody holds yet. */
  ghost predicate Holdable(w: World, j: Job) {
    && Get(w.store, j.id) == Some(j) && j.status.Running? && StartsOf(w, j.id) < j.attempt
    && forall p :: HeldAt(w, p).Some? ==> HeldAt(w, p).value.id != j.id
  }

  lemma ClaimedAreHoldable(w: World, now: int, limit: int, store': Store, claimed: seq<Job>, i: nat)
    requires Inv(w) && ClaimContract(w.store, now, limit, store', claimed) && i < |claimed|
    ensures Holdable(w.(store := store'), claimed[i])
  {
    var w1 := w.(store := store');
    assert Due(w.store[claimed[i].id], now);
    forall p | HeldAt(w1, p).Some? ensures HeldAt(w1, p).value.id != claimed[i].id {
      assert HeldAt(w1, p) == HeldAt(w, p);
    }
  }

  /** The slots dispatcher `d` of manager `m` counted. */
  ghost predicate Counted(w: World, m: nat, d: nat) {
    m in w.managers && d in w.managers[m].dispatchers && w.managers[m].dispatchers[d].phase.Sized?
  }

  ghost function SlotsOf(w: World, m: nat, d: nat): nat
    requires Counted(w, m, d)
  {
    w.managers[m].dispatchers[d].phase.slots
  }

  lemma TakenPlaces(w: World, m: nat, d: nat, claimed: seq<Job>, w': World, p: Place)
    requires Counted(w, m, d) && w' == With(w, m, InPhase(w.managers[m], d, Sending(claimed)))
    ensures HeldAt(w', p).Some? ==>
              if p.Unsent? && p.m == m && p.d == d then p.i < |claimed| && HeldAt(w', p) == Some(claimed[p.i])
              else HeldAt(w', p) == HeldAt(w, p)
  {
  }

  lemma TakeHold(w: World, m: nat, d: nat, claimed: seq<Job>, w': World)
    requires Inv(w) && Counted(w, m, d)
    requires forall i :: 0 <= i < |claimed| ==> Holdable(w, claimed[i])
    requires forall i, j :: 0 <= i < j < |claimed| ==> claimed[i].id != claimed[j].id
    requires w' == With(w, m, InPhase(w.managers[m], d, Sending(claimed)))
    ensures Inv(w')
  {
    hide HeldAt, InBudget;
    forall p | HeldAt(w', p).Some?
      ensures if p.Unsent? && p.m == m && p.d == d then p.i < |claimed| && HeldAt(w', p) == Some(claimed[p.i])
              else HeldAt(w', p) == HeldAt(w, p)
    {
      TakenPlaces(w, m, d, claimed, w', p);
    }
    forall p, q | HeldAt(w', p).Some? && HeldAt(w', q).Some? && HeldAt(w', p).value.id == HeldAt(w', q).value.id
      ensures p == q
    {
      if p.Unsent? && p.m == m && p.d == d {
        assert Holdable(w, claimed[p.i]);
      }
      if q.Unsent? && q.m == m && q.d == d {
        assert Holdable(w, claimed[q.i]);
      }
    }
  }

  lemma ClaimKeepsInv(w: World, m: nat, d: nat, now: int, claimed: seq<Job>, w': World)
    requires Inv(w) && Counted(w, m, d)
    requires ClaimContract(w.store, now, SlotsOf(w, m, d), w'.store, claimed)
    requires w' == With(w, m, InPhase(w.managers[m], d, Sending(claimed))).(store := w'.store)
    ensures Inv(w')
  {
    var slots, w1 := SlotsOf(w, m, d), w.(store := w'.store);
    ClaimChangesStore(w, now, slots, w'.store, claimed);
    forall i | 0 <= i < |claimed| ensures Holdable(w1, claimed[i]) {
      ClaimedAreHoldable(w, now, slots, w'.store, claimed, i);
    }
    TakeHold(w1, m, d, claimed, w');
  }

  lemma LoseClaimKeepsInv(w: World, m: nat, d: nat, now: int, claimed: seq<Job>, w': World)
    requires Inv(w) && Counted(w, m, d)
    requires ClaimContract(w.store, now, SlotsOf(w, m, d), w'.store, claimed)
    requires w' == With(w, m, InPhase(w.managers[m], d, Resting)).(store := w'.store)
    ensures Inv(w')
  {
    ClaimChangesStore(w, now, SlotsOf(w, m, d), w'.store, claimed);
    FewerHolders(w.(store := w'.store), w');
  }

  // ---------------------------------------------------------------------------------------------
  // Moves through the channel

  /** Where a job was before dispatcher `d` of manager `m`, with `n` jobs in the channel, sent the first of its
      claimed ones. */
  function SentFrom(m: nat, d: nat, n: nat, p: Place): Place {
    if p.Unsent? && p.m == m && p.d == d then Unsent(m, d, p.i + 1)
    else if p == InChannel(m, n) then Unsent(m, d, 0)
    else p
  }

  lemma SendMoves(w: World, m: nat, d: nat, w': World, p: Place)
    requires m in w.managers && CanSend(w.managers[m], d) && w' == With(w, m, Sent(w.managers[m], d))
    ensures HeldAt(w', p).Some? ==> HeldAt(w', p) == HeldAt(w, SentFrom(m, d, |w.managers[m].channel|, p))
    ensures Waiting(p) ==> Waiting(SentFrom(m, d, |w.managers[m].channel|, p))
  {
  }

  lemma SendKeepsInv(w: World, m: nat, d: nat, w': World)
    requires Inv(w) && m in w.managers && CanSend(w.managers[m], d) && w' == With(w, m, Sent(w.managers[m], d))
    ensures Inv(w')
  {
    hide InBudget, HeldAt;
    var n := |w.managers[m].channel|;
    var back := (p: Place) => SentFrom(m, d, n, p);
    forall p ensures HeldAt(w', p).Some? ==> HeldAt(w', p) == HeldAt(w, back(p)) {
      SendMoves(w, m, d, w', p);
    }
    Moves(w, w', back);
    forall p | HeldAt(w', p).Some? && Waiting(p)
      ensures StartsOf(w', HeldAt(w', p).value.id) < HeldAt(w', p).value.attempt
    {
      SendMoves(w, m, d, w', p);
    }
  }

  /** Where a job was before worker `k` of manager `m` received the head of the channel. */
  function ReceivedFrom(m: nat, k: nat, p: Place): Place {
    if p.m == m && p.InChannel? then InChannel(m, p.i + 1)
    else if p == AtWorker(m, k) then InChannel(m, 0)
    else p
  }

  lemma ReceiveMoves(w: World, m: nat, k: nat, w': World, p: Place)
    requires m in w.managers && w.managers[m].channel != [] && k !in w.managers[m].workers
    requires var mgr := w.managers[m];
             w'.managers ==
                 w.managers[m := mgr.(channel := mgr.channel[1..], workers := mgr.workers[k := mgr.channel[0]])]
    ensures HeldAt(w', p).Some? ==> HeldAt(w', p) == HeldAt(w, ReceivedFrom(m, k, p))
  {
  }

  lemma ReceiveKeepsInv(w: World, m: nat, k: nat, w': World)
    requires Inv(w) && m in w.managers && w.managers[m].channel != [] && k !in w.managers[m].workers
    requires var mgr, j := w.managers[m], w.managers[m].channel[0];
             w' == With(w, m, mgr.(channel := mgr.channel[1..], workers := mgr.workers[k := j]))
                   .(starts := w.starts[j.id := StartsOf(w, j.id) + 1])
    ensures Inv(w')
  {
    hide InBudget, HeldAt;
    var j := w.managers[m].channel[0];
    var back := (p: Place) => ReceivedFrom(m, k, p);
    forall p ensures HeldAt(w', p).Some? ==> HeldAt(w', p) == HeldAt(w, back(p)) {
      ReceiveMoves(w, m, k, w', p);
    }
    HeadOfChannel(w, m);
    Moves(w, w', back);
    forall p | HeldAt(w', p).Some? && Waiting(p)
      ensures StartsOf(w', HeldAt(w', p).value.id) < HeldAt(w', p).value.attempt
    {
      StillWaiting(w, InChannel(m, 0), back(p), w');
    }
  }

  lemma HeadOfChannel(w: World, m: nat)
    requires m in w.managers && w.managers[m].channel != []
    ensures HeldAt(w, InChannel(m, 0)) == Some(w.managers[m].channel[0])
  {
  }

  /** Counting a start of one held job leaves the count of the other waiting ones alone. */
  lemma StillWaiting(w: World, taken: Place, p: Place, w': World)
    requires Inv(w) && HeldAt(w, taken).Some? && HeldAt(w, p).Some? && Waiting(p) && p != taken
    requires w'.starts == w.starts[HeldAt(w, taken).value.id := StartsOf(w, HeldAt(w, taken).value.id) + 1]
    ensures StartsOf(w', HeldAt(w, p).value.id) < HeldAt(w, p).value.attempt
  {
  }

  // ---------------------------------------------------------------------------------------------
  // Finishing

  lemma FinalisedInBudget(cfg: Settings, j: Job, verdict: Verdict, now: int)
    requires InBudget(j) && j.status.Running?
    ensures Apply(Finalise(cfg, j, verdict, now), j).Ok?
    ensures InBudget(Apply(Finalise(cfg, j, verdict, now), j).value)
  {
  }

  lemma FinishKeepsInv(w: World, m: nat, k: nat, verdict: Verdict, now: int, w': World)
    requires Inv(w) && m in w.managers
    requires ManagerStep(w, m, w.managers[m], Finish(k, verdict, now), w')
    ensures Inv(w')
  {
    var j := w.managers[m].workers[k];
    var at := AtWorker(m, k);
    assert HeldAt(w, at) == Some(j);
    FinalisedInBudget(w.managers[m].cfg, j, verdict, now);
    var w1 := With(w, m, w.managers[m].(workers := w.managers[m].workers - {k}));
    FewerHolders(w, w1);
    forall p | HeldAt(w1, p).Some? ensures HeldAt(w1, p).value.id != j.id {
      assert HeldAt(w, p) == HeldAt(w1, p);
      assert p != at;
    }
    UnheldChanges(w1, w', j.id);
  }

  /** Rewriting one job that nobody holds. */
  lemma UnheldChanges(w: World, w': World, id: string)
    requires Inv(w) && id in w.store
    requires forall p :: HeldAt(w, p).Some? ==> HeldAt(w, p).value.id != id
    requires exists j :: w' == w.(store := w.store[id := j]) && j.id == id && InBudget(j)
              && w.store[id].attempt <= j.attempt
    ensures Inv(w')
  {
    forall p ensures HeldAt(w', p) == HeldAt(w, p) {
    }
  }

  // ---------------------------------------------------------------------------------------------
  // Runs

  /** Actions that change no job and hand none over. */
  predicate IsQuiet(action: Action) {
    match action
    case Dispatch(_, move) => move.CountSlots? || move.Skip? || move.Abandon? || move.Exit?
    case Enqueue(_, _, _) => false
    case Receive(_) => false
    case Finish(_, _, _) => false
    case _ => true
  }

  lemma QuietHolders(w: World, m: nat, action: Action, w': World, p: Place)
    requires m in w.managers && ManagerStep(w, m, w.managers[m], action, w') && IsQuiet(action)
    ensures HeldAt(w', p).Some? ==> HeldAt(w', p) == HeldAt(w, p)
  {
  }

  lemma QuietRest(w: World, m: nat, action: Action, w': World)
    requires m in w.managers && ManagerStep(w, m, w.managers[m], action, w') && IsQuiet(action)
    requires forall n :: n in w.managers ==> InCapacity(w.managers[n])
    ensures w'.store == w.store && w'.starts == w.starts
    ensures forall n :: n in w'.managers ==> InCapacity(w'.managers[n])
  {
  }

  lemma QuietKeepsInv(w: World, m: nat, action: Action, w': World)
    requires Inv(w) && m in w.managers && ManagerStep(w, m, w.managers[m], action, w') && IsQuiet(action)
    ensures Inv(w')
  {
    hide HeldAt, SoleHolders, HeldAreRunning, StartsCounted, InBudget, ManagerStep, InCapacity;
    forall p ensures HeldAt(w', p).Some? ==> HeldAt(w', p) == HeldAt(w, p) {
      QuietHolders(w, m, action, w', p);
    }
    QuietRest(w, m, action, w');
    FewerHolders(w, w');
  }

  lemma JoinKeepsInv(w: World, m: nat, cfg: Config, w': World)
    requires Inv(w) && Step(w, Join(m, cfg), w')
    ensures Inv(w')
  {
    hide SoleHolders, HeldAreRunning, StartsCounted, InBudget;
    forall p ensures HeldAt(w', p).Some? ==> HeldAt(w', p) == HeldAt(w, p) {
    }
    FewerHolders(w, w');
  }

  lemma EnqueueKeepsInv(w: World, m: nat, req: Request, uuid: string, now: int, w': World)
    requires Inv(w) && m in w.managers && ManagerStep(w, m, w.managers[m], Enqueue(req, uuid, now), w')
    ensures Inv(w')
  {
    hide Inv;
    var mgr := w.managers[m];
    var built := BuildJob(mgr.cfg, mgr.handlers, req, uuid, now);
    if built.Some? && built.value.id !in w.store {
      CreateKeepsInv(w, built.value, now, w');
    }
  }

  lemma AdminStepKeepsInv(w: World, e: Event, w': World)
    requires Inv(w) && Step(w, e, w') && (e.AdminCancel? || e.AdminRetry?)
    ensures Inv(w')
  {
    hide Inv;
    var u := if e.AdminCancel? then Cancel(e.now) else Retry(e.now);
    if e.id in w.store && Apply(u, w.store[e.id]).Ok? {
      AdminKeepsInv(w, e.id, u, w');
    }
  }

  lemma DispatchKeepsInv(w: World, m: nat, d: nat, move: Move, w': World)
    requires Inv(w) && m in w.managers && ManagerStep(w, m, w.managers[m], Dispatch(d, move), w')
    requires !IsQuiet(Dispatch(d, move))
    ensures Inv(w')
  {
    hide Inv;
    match move
    case ClaimJobs(now, claimed) => ClaimKeepsInv(w, m, d, now, claimed, w');
    case LoseClaim(now, claimed) => LoseClaimKeepsInv(w, m, d, now, claimed, w');
    case Send => SendKeepsInv(w, m, d, w');
  }

  lemma ManagerKeepsInv(w: World, m: nat, action: Action, w': World)
    requires Inv(w) && m in w.managers && ManagerStep(w, m, w.managers[m], action, w')
    ensures Inv(w')
  {
    hide Inv;
    if IsQuiet(action) {
      QuietKeepsInv(w, m, action, w');
    } else {
      match action
      case Enqueue(req, uuid, now) => EnqueueKeepsInv(w, m, req, uuid, now, w');
      case Receive(k) => ReceiveKeepsInv(w, m, k, w');
      case Finish(k, verdict, now) => FinishKeepsInv(w, m, k, verdict, now, w');
      case Dispatch(d, move) => DispatchKeepsInv(w, m, d, move, w');
    }
  }

  lemma StepKeepsInv(w: World, e: Event, w': World)
    requires Inv(w) && Step(w, e, w')
    ensures Inv(w')
  {
    hide Inv, ManagerStep;
    match e
    case Join(m, cfg) => JoinKeepsInv(w, m, cfg, w');
    case PruneJobs => PruneKeepsInv(w, w');
    case Inside(m, action) => ManagerKeepsInv(w, m, action, w');
    case _ => AdminStepKeepsInv(w, e, w');
  }

  ghost predicate IsRun(ws: seq<World>, es: seq<Event>) {
    |ws| == |es| + 1 && Init(ws[0]) && forall i :: 0 <= i < |es| ==> Step(ws[i], es[i], ws[i + 1])
  }

  lemma {:induction false} RunKeepsInv(ws: seq<World>, es: seq<Event>, i: nat)
    requires IsRun(ws, es) && i < |ws|
    ensures Inv(ws[i])
  {
    if i > 0 {
      RunKeepsInv(ws, es, i - 1);
      StepKeepsInv(ws[i - 1], es[i - 1], ws[i]);
    }
  }

  // ---------------------------------------------------------------------------------------------
  // What every run guarantees

  /** Single ownership: at any moment of any run a job id has at most one holder, and the copy held is, field for field,
      the job in the store, which is running. */
  lemma SingleOwnership(ws: seq<World>, es: seq<Event>, i: nat, p: Place, q: Place)
    requires IsRun(ws, es) && i < |ws|
    requires HeldAt(ws[i], p).Some?
    ensures Get(ws[i].store, HeldAt(ws[i], p).value.id) == HeldAt(ws[i], p) && HeldAt(ws[i], p).value.status.Running?
    ensures HeldAt(ws[i], q).Some? && HeldAt(ws[i], q).value.id == HeldAt(ws[i], p).value.id ==> p == q
  {
    RunKeepsInv(ws, es, i);
  }

  predicate IsClaim(e: Event) {
    e.Inside? && e.action.Dispatch? && (e.action.move.ClaimJobs? || e.action.move.LoseClaim?)
  }

  predicate IsFinish(e: Event) {
    e.Inside? && e.action.Finish?
  }

  /** The events that rewrite one stored job. */
  predicate IsChange(e: Event) {
    e.AdminCancel? || e.AdminRetry? || IsFinish(e)
  }

  /** The worker of a finish is there. */
  ghost predicate Finishing(w: World, e: Event) {
    IsFinish(e) ==> e.m in w.managers && e.action.k in w.managers[e.m].workers
  }

  ghost function Target(w: World, e: Event): string
    requires IsChange(e) && Finishing(w, e)
  {
    if IsFinish(e) then w.managers[e.m].workers[e.action.k].id else e.id
  }

  ghost function ChangeOf(w: World, e: Event): Update
    requires IsChange(e) && Finishing(w, e)
  {
    match e
    case AdminCancel(_, now) => Cancel(now)
    case AdminRetry(_, now) => Retry(now)
    case Inside(m, action) => Finalise(w.managers[m].cfg, w.managers[m].workers[action.k], action.verdict, action.now)
  }

  lemma ChangeStep(w: World, e: Event, w': World)
    requires Step(w, e, w') && IsChange(e)
    ensures Finishing(w, e)
    ensures w'.store == Updated(w.store, Target(w, e), ChangeOf(w, e))
  {
  }

  /** The other events create pending jobs, delete terminal ones and keep the rest. */
  lemma StoreKept(w: World, e: Event, w': World, id: string)
    requires Step(w, e, w') && !IsClaim(e) && !IsChange(e)
    ensures id in w.store && id in w'.store ==> w'.store[id] == w.store[id]
    ensures id in w.store && id !in w'.store ==> w.store[id].status.IsTerminal()
    ensures id !in w.store && id in w'.store ==> w'.store[id].status.IsPending()
  {
    if e.Inside? {
      ManagerKeepsStore(w, e.m, e.action, w', id);
    }
  }

  lemma ManagerKeepsStore(w: World, m: nat, action: Action, w': World, id: string)
    requires m in w.managers && ManagerStep(w, m, w.managers[m], action, w')
    requires !action.Finish? && !(action.Dispatch? && (action.move.ClaimJobs? || action.move.LoseClaim?))
    ensures id in w.store ==> id in w'.store && w'.store[id] == w.store[id]
    ensures id !in w.store && id in w'.store ==> w'.store[id].status.IsPending()
  {
  }

  lemma ClaimStep(w: World, e: Event, w': World)
    requires Step(w, e, w') && IsClaim(e)
    ensures Counted(w, e.m, e.action.d)
    ensures ClaimContract(w.store, e.action.move.now, SlotsOf(w, e.m, e.action.d), w'.store, e.action.move.claimed)
  {
    hide ClaimContract;
  }

  lemma HeldIsStored(w: World, p: Place)
    requires Inv(w) && HeldAt(w, p).Some?
    ensures var j := HeldAt(w, p).value;
            j.id in w.store && w.store[j.id] == j && j.status.Running? && InBudget(j)
  {
    hide SoleHolders, StartsCounted, InCapacity, InBudget, HeldAt;
  }

  lemma ClaimLeavesRunning(w: World, e: Event, w': World, id: string)
    requires Step(w, e, w') && IsClaim(e)
    requires id in w.store && w.store[id].id == id && InBudget(w.store[id]) && w.store[id].status.Running?
    ensures Get(w'.store, id) == Some(w.store[id])
  {
    hide Step, ClaimContract, InBudget;
    ClaimStep(w, e, w');
    ClaimStoreAt(w.store, e.action.move.now, SlotsOf(w, e.m, e.action.d), w'.store, e.action.move.claimed, id);
  }

  /** An update that is refused for running jobs, or is made for another job, leaves a running job alone. */
  lemma ChangeLeavesRunning(w: World, e: Event, w': World, id: string)
    requires Step(w, e, w') && IsChange(e)
    requires id in w.store && w.store[id].status.Running?
    requires Finishing(w, e) && (IsFinish(e) ==> Target(w, e) != id)
    ensures Get(w'.store, id) == Some(w.store[id])
  {
    hide Step, Finalise;
    ChangeStep(w, e, w');
  }

  lemma OtherWorker(w: World, m: nat, k: nat, p: Place)
    requires Inv(w) && m in w.managers && k in w.managers[m].workers && HeldAt(w, p).Some? && p != AtWorker(m, k)
    ensures w.managers[m].workers[k].id != HeldAt(w, p).value.id
  {
    hide HeldAreRunning, StartsCounted, InCapacity, InBudget;
    assert HeldAt(w, AtWorker(m, k)).Some?;
  }

  /** Whatever else happens, only the holder's own finish rewrites a held job. */
  lemma HeldUntouched(w: World, e: Event, w': World, p: Place)
    requires Inv(w) && Step(w, e, w') && HeldAt(w, p).Some?
    requires !(IsFinish(e) && p == AtWorker(e.m, e.action.k))
    ensures Get(w'.store, HeldAt(w, p).value.id) == HeldAt(w, p)
  {
    hide Step, Inv, HeldAt, InBudget;
    HeldIsStored(w, p);
    var id := HeldAt(w, p).value.id;
    if IsClaim(e) {
      ClaimLeavesRunning(w, e, w', id);
    } else if IsChange(e) {
      ChangeStep(w, e, w');
      if IsFinish(e) {
        OtherWorker(w, e.m, e.action.k, p);
      }
      ChangeLeavesRunning(w, e, w', id);
    } else {
      StoreKept(w, e, w', id);
    }
  }

  /** The retry budget: a job's status bounds its attempts, and workers start it at most `maxAttempts` times between
      admin retries. */
  lemma RetryBudget(ws: seq<World>, es: seq<Event>, i: nat, id: string)
    requires IsRun(ws, es) && i < |ws| && id in ws[i].store
    ensures InBudget(ws[i].store[id])
    ensures StartsOf(ws[i], id) <= ws[i].store[id].attempt <= ws[i].store[id].maxAttempts
  {
    RunKeepsInv(ws, es, i);
  }
}

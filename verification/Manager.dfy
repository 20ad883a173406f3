/** The job manager: what `Enqueue` builds, and the dispatcher, channel and worker pool as a step machine over a
    shared store.

    Any number of managers share the store. A claim or prune step may be answered by either store: it is only known to
    honour the contract both were shown to meet.
 */
module Managers {
  import opened Jobs
  import opened Wrappers
  import opened Machine
  import Backoff

  // ---------------------------------------------------------------------------------------------
  // Configuration and enqueueing

  /** Durations are in nanoseconds. */
  datatype Config = Config(
    name: string, defaultQueue: string, workers: int, queueBuffer: int,
    claimInterval: int, cleanupInterval: int, retention: int,
    defaultMaxAttempts: int, defaultTimeout: int, retryBaseDelay: Int64, retryMaxDelay: Int64,
    allowEnqueueWithoutHandler: bool)

  const MILLISECOND: int := 1_000_000

  const DEFAULTS := Config(
    "jobs", "default", 4, 256, 250_000_000, 300_000_000_000, 86_400_000_000_000, 3, 30_000_000_000,
    1_000_000_000, 30_000_000_000, false)

  /** Settings a manager can run with. */
  predicate Usable(c: Config) {
    && c.name != "" && c.defaultQueue != "" && c.workers > 0 && c.queueBuffer > 0
    && c.claimInterval > 0 && c.cleanupInterval > 0 && c.retention > 0
    && c.defaultMaxAttempts > 0 && c.defaultTimeout > 0 && c.retryBaseDelay > 0 && c.retryMaxDelay > 0
  }

  type Settings = c: Config | Usable(c) witness DEFAULTS

  function OrDefault(value: int, default: int): int {
    if value <= 0 then default else value
  }

  /** A setting that was given is kept, and one that was not becomes the default. */
  ghost predicate Settles(given: int, default: int, settled: int) {
    settled == if given > 0 then given else default
  }

  function NormalizeConfig(c: Config): Settings
  {
    Config(
      if c.name == "" then DEFAULTS.name else c.name,
      if c.defaultQueue == "" then DEFAULTS.defaultQueue else c.defaultQueue,
      OrDefault(c.workers, DEFAULTS.workers),
      OrDefault(c.queueBuffer, DEFAULTS.queueBuffer),
      OrDefault(c.claimInterval, DEFAULTS.claimInterval),
      OrDefault(c.cleanupInterval, DEFAULTS.cleanupInterval),
      OrDefault(c.retention, DEFAULTS.retention),
      OrDefault(c.defaultMaxAttempts, DEFAULTS.defaultMaxAttempts),
      OrDefault(c.defaultTimeout, DEFAULTS.defaultTimeout),
      if c.retryBaseDelay <= 0 then DEFAULTS.retryBaseDelay else c.retryBaseDelay,
      if c.retryMaxDelay <= 0 then DEFAULTS.retryMaxDelay else c.retryMaxDelay,
      c.allowEnqueueWithoutHandler)
  }

  /** Missing or non-positive settings fall back to the defaults; the others are kept. */
  lemma ConfigSettles(c: Config)
    ensures var r := NormalizeConfig(c);
            && r.name == (if c.name != "" then c.name else "jobs")
            && r.defaultQueue == (if c.defaultQueue != "" then c.defaultQueue else "default")
            && Settles(c.workers, 4, r.workers) && Settles(c.queueBuffer, 256, r.queueBuffer)
            && Settles(c.claimInterval, 250 * MILLISECOND, r.claimInterval)
            && Settles(c.cleanupInterval, 5 * 60_000 * MILLISECOND, r.cleanupInterval)
            && Settles(c.retention, 24 * 3_600_000 * MILLISECOND, r.retention)
            && Settles(c.defaultMaxAttempts, 3, r.defaultMaxAttempts)
            && Settles(c.defaultTimeout, 30_000 * MILLISECOND, r.defaultTimeout)
            && Settles(c.retryBaseDelay, 1_000 * MILLISECOND, r.retryBaseDelay)
            && Settles(c.retryMaxDelay, 30_000 * MILLISECOND, r.retryMaxDelay)
            && r.allowEnqueueWithoutHandler == c.allowEnqueueWithoutHandler
  {
  }

  /** Settings that are usable are left alone. */
  lemma UsableIsKept(c: Settings)
    ensures NormalizeConfig(c) == c
  {
  }

  datatype Handler = Handler(queue: string, maxAttempts: int, timeout: int)

  datatype Request = Request(
    id: string, kind: string, queue: string, payload: string, metadata: map<string, string>,
    maxAttempts: int, timeout: int, runAfter: Option<int>)

  /** A job that has never been claimed: pending, with at least one attempt to spend. */
  ghost predicate Unclaimed(j: Job, now: int) {
    && j.kind != "" && j.queue != "" && j.timeout > 0
    && j.attempt == 0 && j.maxAttempts >= 1
    && j.startedAt.None? && j.completedAt.None?
    && j.createdAt == now && j.availableAt >= now
    && j.status == (if j.availableAt > now then Scheduled else Queued)
  }

  /** The first positive one of what was asked for, the handler's value and the default. */
  ghost predicate Picks(asked: int, handler: Option<int>, default: int, picked: int) {
    picked == if asked > 0 then asked else if handler.Some? && handler.value > 0 then handler.value else default
  }

  /** The metadata of a job names the manager that took it in, unless the request already named one. */
  function WithManager(metadata: map<string, string>, name: string): map<string, string> {
    if "job_manager" in metadata || name == "" then metadata else metadata["job_manager" := name]
  }

  ghost predicate Labelled(given: map<string, string>, name: string, metadata: map<string, string>) {
    && (forall key :: key in given ==> key in metadata && metadata[key] == given[key])
    && (forall key :: key in metadata && key !in given ==> key == "job_manager" && metadata[key] == name != "")
    && ("job_manager" !in given && name != "" ==> "job_manager" in metadata)
  }

  /** The job `Enqueue` hands to the store, or nothing when it refuses the request. */
  function BuildJob(cfg: Settings, handlers: map<string, Handler>, req: Request, uuid: string, now: int)
    : (r: Option<Job>)
    ensures r.None? <==> req.kind == "" || (req.kind !in handlers && !cfg.allowEnqueueWithoutHandler)
    ensures r.Some? ==> Unclaimed(r.value, now) && r.value.id == (if req.id == "" then uuid else req.id)
    ensures r.Some? ==>
              && r.value.kind == req.kind && r.value.payload == req.payload && r.value.result == r.value.lastError == ""
              && Labelled(req.metadata, cfg.name, r.value.metadata) && r.value.updatedAt == now
    ensures r.Some? ==> var h := Get(handlers, req.kind);
                        && Picks(req.maxAttempts, if h.Some? then Some(h.value.maxAttempts) else None,
                                 cfg.defaultMaxAttempts, r.value.maxAttempts)
                        && Picks(req.timeout, if h.Some? then Some(h.value.timeout) else None,
                                 cfg.defaultTimeout, r.value.timeout)
                        && (req.queue != "" ==> r.value.queue == req.queue)
                        && (req.queue == "" && h.Some? && h.value.queue != "" ==> r.value.queue == h.value.queue)
                        && (req.queue == "" && !(h.Some? && h.value.queue != "") ==> r.value.queue == cfg.defaultQueue)
    ensures r.Some? ==>
              (r.value.availableAt > now <==> req.runAfter.Some? && req.runAfter.value > now)
              && (r.value.availableAt > now ==> r.value.availableAt == req.runAfter.value)
  {
    if req.kind == "" || (req.kind !in handlers && !cfg.allowEnqueueWithoutHandler) then None
    else
      var handler := Get(handlers, req.kind);
      var queue := if req.queue == "" && handler.Some? then handler.value.queue else req.queue;
      var attempts := if req.maxAttempts <= 0 && handler.Some? then handler.value.maxAttempts else req.maxAttempts;
      var timeout := if req.timeout <= 0 && handler.Some? then handler.value.timeout else req.timeout;
      var delayed := req.runAfter.Some? && req.runAfter.value > now;
      Some(Job(if req.id == "" then uuid else req.id, req.kind, if queue == "" then cfg.defaultQueue else queue,
               if delayed then Scheduled else Queued,
               req.payload, "", WithManager(req.metadata, cfg.name), 0, OrDefault(attempts, cfg.defaultMaxAttempts),
               OrDefault(timeout, cfg.defaultTimeout), "",
               now, now, if delayed then req.runAfter.value else now, None, None))
  }

  // ---------------------------------------------------------------------------------------------
  // The machine

  /** Where a dispatcher stands: between rounds, holding the free slots it counted, or sending what it claimed. */
  datatype Phase = Resting | Sized(slots: nat) | Sending(claimed: seq<Job>)

  /** A dispatcher goroutine; it is live until its context is cancelled. */
  datatype Dispatcher = Dispatcher(phase: Phase, live: bool)

  /** `running` is the flag that `Start` and `Stop` test. A `Stop` clears it before it waits, so a `Start` in between
      adds a dispatcher while an older one is still at work. */
  datatype Manager = Manager(
    cfg: Settings, handlers: map<string, Handler>, running: bool, dispatchers: map<nat, Dispatcher>,
    channel: seq<Job>, workers: map<nat, Job>)

  /** `starts` counts how often a worker took the job since it was created or last retried by an admin. */
  datatype World = World(store: Store, managers: map<nat, Manager>, starts: map<string, nat>)

  datatype Verdict = Success(result: string) | Failure(reason: string)

  /** How long after a failed attempt the next one may start, in milliseconds. */
  function RetryAfter(cfg: Settings, attempt: int): int {
    Backoff.JobDelay(cfg.retryBaseDelay, cfg.retryMaxDelay, attempt) / MILLISECOND
  }

  /** The store call a worker makes from the copy it holds. */
  function Finalise(cfg: Settings, copy: Job, verdict: Verdict, now: int): Update {
    match verdict
    case Success(result) => MarkSucceeded(result, now)
    case Failure(reason) =>
      if copy.attempt < copy.maxAttempts then MarkRetry(reason, now + RetryAfter(cfg, copy.attempt), now)
      else MarkFailed(reason, now)
  }

  function Updated(store: Store, id: string, u: Update): Store {
    if id !in store then store
    else match Apply(u, store[id])
         case Ok(j) => store[id := j]
         case Err(_) => store
  }

  /** What happens to the store from outside, or inside one manager. */
  datatype Event =
    | Join(m: nat, cfg: Config)
    | AdminCancel(id: string, now: int)
    | AdminRetry(id: string, now: int)
    | PruneJobs
    | Inside(m: nat, action: Action)

  datatype Action =
    | Register(kind: string, handler: Handler)
    | Enqueue(req: Request, uuid: string, now: int)
    | Start(d: nat)
    | Stop
    | CancelContext
    | Crash
    | Receive(k: nat)
    | Finish(k: nat, verdict: Verdict, now: int)
    | LoseFinish(k: nat)
    | Dispatch(d: nat, move: Move)

  /** A step of one dispatcher. */
  datatype Move =
    | CountSlots
    | Skip
    | ClaimJobs(now: int, claimed: seq<Job>)
    | LoseClaim(now: int, claimed: seq<Job>)
    | Send
    | Abandon
    | Exit

  /** Steps after which a running job may be left without a holder. */
  predicate Loses(e: Event) {
    && e.Inside?
    && (|| e.action.LoseFinish? || e.action.Crash?
        || (e.action.Dispatch? && (e.action.move.LoseClaim? || e.action.move.Abandon?)))
  }

  ghost function With(w: World, m: nat, mgr: Manager): World {
    w.(managers := w.managers[m := mgr])
  }

  function StartsOf(w: World, id: string): nat {
    if id in w.starts then w.starts[id] else 0
  }

  /** The manager with dispatcher `d` in another phase. */
  function InPhase(mgr: Manager, d: nat, phase: Phase): Manager
    requires d in mgr.dispatchers
  {
    mgr.(dispatchers := mgr.dispatchers[d := mgr.dispatchers[d].(phase := phase)])
  }

  predicate IsIdle(phase: Phase) {
    phase.Resting? || phase == Sending([])
  }

  /** All contexts handed out so far are cancelled. */
  function Silenced(dispatchers: map<nat, Dispatcher>): map<nat, Dispatcher> {
    map d | d in dispatchers :: dispatchers[d].(live := false)
  }

  /** The manager after dispatcher `d` sent the first of its claimed jobs. */
  function Sent(mgr: Manager, d: nat): Manager
    requires CanSend(mgr, d)
  {
    var claimed := mgr.dispatchers[d].phase.claimed;
    InPhase(mgr, d, Sending(claimed[1..])).(channel := mgr.channel + [claimed[0]])
  }

  predicate HasUnsent(mgr: Manager, d: nat) {
    d in mgr.dispatchers && mgr.dispatchers[d].phase.Sending? && mgr.dispatchers[d].phase.claimed != []
  }

  predicate CanSend(mgr: Manager, d: nat) {
    HasUnsent(mgr, d) && |mgr.channel| < mgr.cfg.queueBuffer
  }

  ghost predicate ManagerStep(w: World, m: nat, mgr: Manager, action: Action, w': World)
    requires m in w.managers && mgr == w.managers[m]
  {
    match action
    case Register(kind, handler) =>
      w' == With(w, m, if kind == "" then mgr else mgr.(handlers := mgr.handlers[kind := handler]))
    case Enqueue(req, uuid, now) =>
      (match BuildJob(mgr.cfg, mgr.handlers, req, uuid, now)
       case None => w' == w
       case Some(j) =>
         w' == if j.id in w.store then w else w.(store := w.store[j.id := j], starts := w.starts[j.id := 0]))
    case Start(d) =>
      && !mgr.running && d !in mgr.dispatchers
      && w' == With(w, m, mgr.(running := true, dispatchers := mgr.dispatchers[d := Dispatcher(Resting, true)]))
    case Stop =>
      w' == With(w, m, mgr.(running := false, dispatchers := Silenced(mgr.dispatchers)))
    case CancelContext =>
      w' == With(w, m, mgr.(dispatchers := Silenced(mgr.dispatchers)))
    case Crash =>
      w' == w.(managers := w.managers - {m})
    case Receive(k) =>
      && mgr.channel != [] && k !in mgr.workers
      && var j := mgr.channel[0];
         w' == With(w, m, mgr.(channel := mgr.channel[1..], workers := mgr.workers[k := j]))
               .(starts := w.starts[j.id := StartsOf(w, j.id) + 1])
    case Finish(k, verdict, now) =>
      && k in mgr.workers
      && var j := mgr.workers[k];
         w' == With(w, m, mgr.(workers := mgr.workers - {k}))
               .(store := Updated(w.store, j.id, Finalise(mgr.cfg, j, verdict, now)))
    case LoseFinish(k) =>
      k in mgr.workers && w' == With(w, m, mgr.(workers := mgr.workers - {k}))
    case Dispatch(d, move) =>
      d in mgr.dispatchers && DispatchStep(w, m, mgr, d, mgr.dispatchers[d], move, w')
  }

  /** A dispatcher claims only if there are handlers, and only jobs of their types. */
  ghost predicate Handles(handlers: map<string, Handler>, claimed: seq<Job>) {
    handlers != map[] && forall i :: 0 <= i < |claimed| ==> claimed[i].kind in handlers
  }

  /** The steps of one dispatcher's round. A round goes on after its context is cancelled until it notices. */
  ghost predicate DispatchStep(w: World, m: nat, mgr: Manager, d: nat, self: Dispatcher, move: Move, w': World)
    requires m in w.managers && mgr == w.managers[m] && d in mgr.dispatchers && self == mgr.dispatchers[d]
  {
    match move
    case CountSlots =>
      && IsIdle(self.phase) && |mgr.channel| < mgr.cfg.queueBuffer
      && w' == With(w, m, InPhase(mgr, d, Sized(mgr.cfg.queueBuffer - |mgr.channel|)))
    case Skip =>
      self.phase.Sized? && mgr.handlers == map[] && w' == With(w, m, InPhase(mgr, d, Resting))
    case ClaimJobs(now, claimed) =>
      && self.phase.Sized? && Handles(mgr.handlers, claimed)
      && ClaimContract(w.store, now, self.phase.slots, w'.store, claimed)
      && w' == With(w, m, InPhase(mgr, d, Sending(claimed))).(store := w'.store)
    case LoseClaim(now, claimed) =>
      && self.phase.Sized? && Handles(mgr.handlers, claimed)
      && ClaimContract(w.store, now, self.phase.slots, w'.store, claimed)
      && w' == With(w, m, InPhase(mgr, d, Resting)).(store := w'.store)
    case Send =>
      CanSend(mgr, d) && w' == With(w, m, Sent(mgr, d))
    case Abandon =>
      self.phase.Sending? && !self.live && w' == With(w, m, InPhase(mgr, d, Resting))
    case Exit =>
      !self.live && IsIdle(self.phase) && w' == With(w, m, mgr.(dispatchers := mgr.dispatchers - {d}))
  }

  ghost predicate Step(w: World, e: Event, w': World) {
    match e
    case Join(m, cfg) =>
      m !in w.managers && w' == With(w, m, Manager(NormalizeConfig(cfg), map[], false, map[], [], map[]))
    case AdminCancel(id, now) =>
      w' == w.(store := Updated(w.store, id, Cancel(now)))
    case AdminRetry(id, now) =>
      w' == if id in w.store && Apply(Retry(now), w.store[id]).Ok?
            then w.(store := Updated(w.store, id, Retry(now)), starts := w.starts[id := 0]) else w
    case PruneJobs =>
      PruneContract(w.store, w'.store) && w' == w.(store := w'.store)
    case Inside(m, action) =>
      m in w.managers && ManagerStep(w, m, w.managers[m], action, w')
  }

  // ---------------------------------------------------------------------------------------------
  // Holders

  datatype Place = Unsent(m: nat, d: nat, i: nat) | InChannel(m: nat, i: nat) | AtWorker(m: nat, k: nat)

  function HeldBy(mgr: Manager, p: Place): Option<Job> {
    match p
    case Unsent(_, d, i) =>
      if HasUnsent(mgr, d) && i < |mgr.dispatchers[d].phase.claimed|
      then Some(mgr.dispatchers[d].phase.claimed[i]) else None
    case InChannel(_, i) => if i < |mgr.channel| then Some(mgr.channel[i]) else None
    case AtWorker(_, k) => if k in mgr.workers then Some(mgr.workers[k]) else None
  }

  function HeldAt(w: World, p: Place): Option<Job> {
    if p.m in w.managers then HeldBy(w.managers[p.m], p) else None
  }

  ghost predicate SoleHolders(w: World) {
    forall p, q :: HeldAt(w, p).Some? && HeldAt(w, q).Some? && HeldAt(w, p).value.id == HeldAt(w, q).value.id ==> p == q
  }

  /** A held copy is the stored job itself, and that job is running. */
  ghost predicate HeldAreRunning(w: World) {
    forall p :: HeldAt(w, p).Some? ==>
        Get(w.store, HeldAt(w, p).value.id) == HeldAt(w, p) && HeldAt(w, p).value.status.Running?
  }

  /** What each status says about the attempts spent. */
  ghost predicate InBudget(j: Job) {
    && 0 <= j.attempt <= j.maxAttempts && 1 <= j.maxAttempts
    && (j.status.IsPending() || j.status.Canceled? ==> j.attempt < j.maxAttempts)
    && (j.status.Running? || j.status.Succeeded? ==> 1 <= j.attempt)
    && (j.status.Failed? ==> j.attempt == j.maxAttempts)
    && (j.status.IsTerminal() <==> j.completedAt.Some?)
  }

  predicate Waiting(p: Place) {
    !p.AtWorker?
  }

  /** A worker has started the job at most once per attempt, and not yet for an attempt still waiting. */
  ghost predicate StartsCounted(w: World) {
    && (forall id :: id in w.store ==> StartsOf(w, id) <= w.store[id].attempt)
    && (forall p :: HeldAt(w, p).Some? && Waiting(p) ==>
          StartsOf(w, HeldAt(w, p).value.id) < HeldAt(w, p).value.attempt)
  }

  /** A channel holds no more than its capacity. */
  ghost predicate InCapacity(mgr: Manager) {
    |mgr.channel| <= mgr.cfg.queueBuffer
  }

  ghost predicate Inv(w: World) {
    && Keyed(w.store)
    && (forall id :: id in w.store ==> InBudget(w.store[id]))
    && SoleHolders(w)
    && HeldAreRunning(w)
    && StartsCounted(w)
    && (forall m :: m in w.managers ==> InCapacity(w.managers[m]))
  }

  ghost predicate Init(w: World) {
    w.store == map[] && w.managers == map[] && w.starts == map[]
  }
}

/** Redis clients that update optimistically (WATCH, read, MULTI/EXEC, up to five attempts) interleaved with the atomic
    claim and prune scripts.

    Every interleaving is equivalent to a sequence of whole atomic calls: the log kept below.
 */
module Watch {
  import opened Jobs
  import opened Wrappers
  import opened RedisStores
  import opened Refinement

  const ATTEMPTS: nat := 5

  datatype Call = CreateCall(job: Job) | UpdateCall(id: string, update: Update)

  function KeyOfCall(call: Call): string {
    match call
    case CreateCall(job) => job.id
    case UpdateCall(id, _) => id
  }

  function OpOf(call: Call): Op {
    match call
    case CreateCall(job) => Create(job)
    case UpdateCall(id, u) => Change(id, u)
  }

  /** What the client decides from the value it read: the job to write, or an error. */
  function Decide(call: Call, seen: Option<Job>): Result<Job> {
    match call
    case CreateCall(job) => if seen.Some? then Err(AlreadyExists) else Ok(job)
    case UpdateCall(_, u) => if seen.None? then Err(NotFound) else Apply(u, seen.value)
  }

  /** The queued commands EXEC runs. */
  function Commit(server: Redis, call: Call, j: Job): Redis {
    if call.CreateCall? then AddJob(server, j) else PutJob(server, j)
  }

  /** `since` is how much had happened when the call was made; `at` is where the log accounts for it. */
  datatype Client =
    | Idle
    | Watching(call: Call, attempt: nat, dirty: bool, since: nat)
    | Loaded(call: Call, attempt: nat, dirty: bool, since: nat, seen: Option<Job>)
    | Done(call: Call, reply: Reply, since: nat, at: nat)
    | GaveUp(call: Call, since: nat)

  datatype Actor = ByClient(c: nat) | ByScript

  /** A whole call, what it was answered and who made it. */
  datatype Entry = Entry(op: Op, reply: Reply, actor: Actor)

  datatype Net = Net(server: Redis, clients: map<nat, Client>, log: seq<Entry>)

  datatype Event =
    | Begin(c: nat, call: Call)
    | Load(c: nat)
    | Exec(c: nat)
    | Script(op: Op)
    | Return(c: nat)

  /** The job keys a script writes or deletes. */
  ghost function Touched(server: Redis, op: Op): set<string> {
    match op
    case Claim(now, limit, f) => if limit <= 0 then {} else TakenIds(server.jobs, ScanOf(server, now, limit), f)
    case Prune(cutoff) => RetiredUpTo(server, cutoff)
    case _ => {}
  }

  function Dirty(client: Client, keys: set<string>): Client {
    if (client.Watching? || client.Loaded?) && KeyOfCall(client.call) in keys then client.(dirty := true) else client
  }

  function DirtyAll(clients: map<nat, Client>, keys: set<string>): map<nat, Client> {
    map c | c in clients :: Dirty(clients[c], keys)
  }

  ghost function FireLoad(s: Net, c: nat, client: Client): Net
    requires client.Watching?
  {
    var seen := Get(s.server.jobs, KeyOfCall(client.call));
    match Decide(client.call, seen)
    case Err(e) =>
      s.(clients := s.clients[c := Done(client.call, Refused(e), client.since, |s.log|)],
         log := s.log + [Entry(OpOf(client.call), Refused(e), ByClient(c))])
    case Ok(_) =>
      s.(clients := s.clients[c := Loaded(client.call, client.attempt, client.dirty, client.since, seen)])
  }

  /** EXEC after a watched key was written by somebody else: nothing runs, and the client starts over or gives up. */
  function FireLoss(s: Net, c: nat, client: Client): Net
    requires client.Loaded?
  {
    s.(clients := s.clients[c := if client.attempt + 1 < ATTEMPTS
                            then Watching(client.call, client.attempt + 1, false, client.since)
                            else GaveUp(client.call, client.since)])
  }

  function FireCommit(s: Net, c: nat, client: Client): Net
    requires client.Loaded? && Decide(client.call, client.seen).Ok?
  {
    var j := Decide(client.call, client.seen).value;
    Net(Commit(s.server, client.call, j),
        DirtyAll(s.clients, {KeyOfCall(client.call)})[c := Done(client.call, Stored(j), client.since, |s.log|)],
        s.log + [Entry(OpOf(client.call), Stored(j), ByClient(c))])
  }

  ghost function FireScript(s: Net, op: Op): Net {
    var (server, reply) := RedisStep(s.server, op);
    Net(server, DirtyAll(s.clients, Touched(s.server, op)), s.log + [Entry(op, reply, ByScript)])
  }

  /** One event; an event that is not enabled changes nothing. */
  ghost function Fire(s: Net, e: Event): Net {
    match e
    case Begin(c, call) =>
      if ClientAt(s, c).Idle? then s.(clients := s.clients[c := Watching(call, 0, false, |s.log|)]) else s
    case Load(c) =>
      if ClientAt(s, c).Watching? then FireLoad(s, c, ClientAt(s, c)) else s
    case Exec(c) =>
      var client := ClientAt(s, c);
      if !client.Loaded? || Decide(client.call, client.seen).Err? then s
      else if client.dirty then FireLoss(s, c, client)
      else FireCommit(s, c, client)
    case Script(op) =>
      if op.Claim? || op.Prune? then FireScript(s, op) else s
    case Return(c) =>
      if ClientAt(s, c).Done? || ClientAt(s, c).GaveUp? then s.(clients := s.clients[c := Idle]) else s
  }

  function ClientAt(s: Net, c: nat): Client {
    if c in s.clients then s.clients[c] else Idle
  }

  ghost function RunNet(es: seq<Event>): Net
    decreases |es|
  {
    if es == [] then Net(EMPTY, map[], []) else Fire(RunNet(es[..|es| - 1]), es[|es| - 1])
  }

  // ---------------------------------------------------------------------------------------------
  // The log as a sequential history

  function OpsOf(log: seq<Entry>): (ops: seq<Op>)
    ensures |ops| == |log|
    ensures forall i :: 0 <= i < |log| ==> ops[i] == log[i].op
  {
    seq(|log|, i requires 0 <= i < |log| => log[i].op)
  }

  function RepliesOf(log: seq<Entry>): (replies: seq<Reply>)
    ensures |replies| == |log|
    ensures forall i :: 0 <= i < |log| ==> replies[i] == log[i].reply
  {
    seq(|log|, i requires 0 <= i < |log| => log[i].reply)
  }

  /** Run one at a time from the empty store, the logged calls give the logged replies. */
  ghost predicate Legal(log: seq<Entry>) {
    RepliesOf(log) == Replies(EMPTY, OpsOf(log))
  }

  ghost predicate ClientOk(s: Net, c: nat, client: Client) {
    match client
    case Idle => true
    case Watching(_, attempt, _, since) => attempt < ATTEMPTS && since <= |s.log|
    case Loaded(call, attempt, dirty, since, seen) =>
      && attempt < ATTEMPTS && since <= |s.log|
      && Decide(call, seen).Ok?
      && (!dirty ==> Get(s.server.jobs, KeyOfCall(call)) == seen)
    case Done(call, reply, since, at) => since <= at < |s.log| && s.log[at] == Entry(OpOf(call), reply, ByClient(c))
    case GaveUp(_, since) => since <= |s.log|
  }

  ghost predicate Inv(s: Net) {
    && IndexesAgree(s.server)
    && Legal(s.log)
    && s.server == RedisRun(EMPTY, OpsOf(s.log))
    && (forall c :: c in s.clients ==> ClientOk(s, c, s.clients[c]))
  }

  lemma LogOneMore(log: seq<Entry>, server: Redis, op: Op, actor: Actor)
    requires Legal(log) && server == RedisRun(EMPTY, OpsOf(log))
    ensures var (server', reply) := RedisStep(server, op);
            Legal(log + [Entry(op, reply, actor)]) && server' == RedisRun(EMPTY, OpsOf(log + [Entry(op, reply, actor)]))
  {
    hide RedisStep;
    var log' := log + [Entry(op, RedisStep(server, op).1, actor)];
    OneMoreCall(EMPTY, OpsOf(log), op);
    assert OpsOf(log') == OpsOf(log) + [op];
    assert RepliesOf(log') == RepliesOf(log) + [RedisStep(server, op).1];
  }

  /** A clean EXEC, or a decision to refuse, is the atomic call on the current state. */
  lemma DecisionIsAtomic(server: Redis, call: Call, seen: Option<Job>)
    requires Keyed(server.jobs) && seen == Get(server.jobs, KeyOfCall(call))
    ensures RedisStep(server, OpOf(call)) ==
            match Decide(call, seen)
            case Ok(j) => (Commit(server, call, j), Stored(j))
            case Err(e) => (server, Refused(e))
  {
  }

  lemma CommitTouchesOneKey(server: Redis, call: Call, seen: Option<Job>, id: string)
    requires Keyed(server.jobs) && seen == Get(server.jobs, KeyOfCall(call)) && Decide(call, seen).Ok?
    requires id != KeyOfCall(call)
    ensures Get(Commit(server, call, Decide(call, seen).value).jobs, id) == Get(server.jobs, id)
  {
  }

  lemma ScriptTouches(server: Redis, op: Op, id: string)
    requires op.Claim? || op.Prune?
    requires id !in Touched(server, op)
    ensures Get(RedisStep(server, op).0.jobs, id) == Get(server.jobs, id)
  {
  }

  /** A client that a state change does not concern, or that it marked dirty, stays consistent. */
  lemma OthersStayOk(s: Net, s': Net, c: nat, keys: set<string>)
    requires c in s.clients && ClientOk(s, c, s.clients[c])
    requires s.log <= s'.log
    requires forall id :: id !in keys ==> Get(s'.server.jobs, id) == Get(s.server.jobs, id)
    ensures ClientOk(s', c, Dirty(s.clients[c], keys))
  {
  }

  lemma LoadKeepsInv(s: Net, c: nat, client: Client)
    requires Inv(s) && client == ClientAt(s, c) && client.Watching?
    ensures Inv(FireLoad(s, c, client))
  {
    var s' := FireLoad(s, c, client);
    var seen := Get(s.server.jobs, KeyOfCall(client.call));
    if Decide(client.call, seen).Err? {
      DecisionIsAtomic(s.server, client.call, seen);
      LogOneMore(s.log, s.server, OpOf(client.call), ByClient(c));
    }
    ClientsOk(s, s', c, {});
  }

  lemma CommitKeepsInv(s: Net, c: nat, client: Client)
    requires Inv(s) && client == ClientAt(s, c) && client.Loaded? && !client.dirty
    ensures Inv(FireCommit(s, c, client))
  {
    var s' := FireCommit(s, c, client);
    DecisionIsAtomic(s.server, client.call, client.seen);
    LogOneMore(s.log, s.server, OpOf(client.call), ByClient(c));
    StepKeepsIndexes(s.server, OpOf(client.call));
    forall id | id != KeyOfCall(client.call) ensures Get(s'.server.jobs, id) == Get(s.server.jobs, id) {
      CommitTouchesOneKey(s.server, client.call, client.seen, id);
    }
    ClientsOk(s, s', c, {KeyOfCall(client.call)});
  }

  lemma ScriptKeepsInv(s: Net, op: Op)
    requires Inv(s) && (op.Claim? || op.Prune?)
    ensures Inv(FireScript(s, op))
  {
    var s' := FireScript(s, op);
    LogOneMore(s.log, s.server, op, ByScript);
    StepKeepsIndexes(s.server, op);
    forall id | id !in Touched(s.server, op) ensures Get(s'.server.jobs, id) == Get(s.server.jobs, id) {
      ScriptTouches(s.server, op, id);
    }
    forall c | c in s'.clients ensures ClientOk(s', c, s'.clients[c]) {
      OthersStayOk(s, s', c, Touched(s.server, op));
    }
  }

  lemma FireKeepsInv(s: Net, e: Event)
    requires Inv(s)
    ensures Inv(Fire(s, e))
  {
    hide IndexesAgree, Legal, RedisRun, FireLoad, FireCommit, FireScript;
    match e
    case Load(c) =>
      if ClientAt(s, c).Watching? {
        LoadKeepsInv(s, c, ClientAt(s, c));
      }
    case Exec(c) =>
      if ClientAt(s, c).Loaded? && !ClientAt(s, c).dirty {
        CommitKeepsInv(s, c, ClientAt(s, c));
      }
    case Script(op) =>
      if op.Claim? || op.Prune? {
        ScriptKeepsInv(s, op);
      }
    case _ =>
  }

  lemma ClientsOk(s: Net, s': Net, c: nat, keys: set<string>)
    requires Inv(s) && s.log <= s'.log
    requires forall id :: id !in keys ==> Get(s'.server.jobs, id) == Get(s.server.jobs, id)
    requires forall d :: d in s'.clients && d != c ==> d in s.clients && s'.clients[d] == Dirty(s.clients[d], keys)
    requires c in s'.clients ==> ClientOk(s', c, s'.clients[c])
    ensures forall d :: d in s'.clients ==> ClientOk(s', d, s'.clients[d])
  {
    forall d | d in s'.clients && d != c ensures ClientOk(s', d, s'.clients[d]) {
      OthersStayOk(s, s', d, keys);
    }
  }

  /** Linearizability: after any interleaving there is a sequence of whole atomic calls that, run one at a
      time, gives the server's state and every reply handed to a client, each of them placed
      between its call and its return. */
  lemma {:induction false} Linearizable(es: seq<Event>)
    ensures var s := RunNet(es);
            && Legal(s.log)
            && s.server == RedisRun(EMPTY, OpsOf(s.log))
            && (forall c :: c in s.clients && s.clients[c].Done? ==>
                  var d := s.clients[c];
                  d.since <= d.at < |s.log| && s.log[d.at] == Entry(OpOf(d.call), d.reply, ByClient(c)))
    ensures Inv(RunNet(es))
    decreases |es|
  {
    if es == [] {
      EmptyAgrees();
    } else {
      Linearizable(es[..|es| - 1]);
      FireKeepsInv(RunNet(es[..|es| - 1]), es[|es| - 1]);
    }
  }

  /** An event is invisible or is one whole atomic call, answered to the client that made it. */
  lemma EventsAreAtomic(s: Net, e: Event) returns (op: Op, reply: Reply)
    requires Inv(s)
    ensures var s' := Fire(s, e);
            || (s'.server == s.server && s'.log == s.log)
            || (&& s'.log == s.log + [Entry(op, reply, if e.Script? then ByScript else ByClient(e.c))]
                && (s'.server, reply) == RedisStep(s.server, op)
                && (if e.Script? then op == e.op
                    else && (e.Load? || e.Exec?) && s'.clients[e.c].Done?
                         && op == OpOf(s'.clients[e.c].call) && reply == s'.clients[e.c].reply))
  {
    op, reply := Prune(0), Removed(0);
    match e
    case Load(c) =>
      var client := ClientAt(s, c);
      if client.Watching? {
        DecisionIsAtomic(s.server, client.call, Get(s.server.jobs, KeyOfCall(client.call)));
        op, reply := OpOf(client.call), RedisStep(s.server, OpOf(client.call)).1;
      }
    case Exec(c) =>
      var client := ClientAt(s, c);
      if client.Loaded? && !client.dirty {
        DecisionIsAtomic(s.server, client.call, client.seen);
        op, reply := OpOf(client.call), RedisStep(s.server, OpOf(client.call)).1;
      }
    case Script(o) =>
      op, reply := o, RedisStep(s.server, o).1;
    case _ =>
  }

  /** An attempt that loses the race changes no job, no index and no other client; the fifth loss ends the call. */
  lemma LosersChangeNothing(s: Net, c: nat)
    requires Inv(s) && ClientAt(s, c).Loaded? && ClientAt(s, c).dirty
    ensures var s', client := Fire(s, Exec(c)), ClientAt(s, c);
            && s'.server == s.server && s'.log == s.log
            && (forall d :: d in s.clients && d != c ==> s'.clients[d] == s.clients[d])
            && (if client.attempt == ATTEMPTS - 1 then s'.clients[c].GaveUp?
                else s'.clients[c] == Watching(client.call, client.attempt + 1, false, client.since))
  {
  }

  /** The event is a transaction of client `c` that loses the race. */
  predicate Loses(client: Client, e: Event, c: nat) {
    e == Exec(c) && client.Loaded? && Decide(client.call, client.seen).Ok? && client.dirty
  }

  /** How often a client lost the race since it made its last call. */
  ghost function Losses(es: seq<Event>, c: nat): nat
    decreases |es|
  {
    if es == [] then 0
    else
      var before, e := es[..|es| - 1], es[|es| - 1];
      var client := ClientAt(RunNet(before), c);
      if Loses(client, e, c) then Losses(before, c) + 1
      else if e.Begin? && e.c == c && client.Idle? then 0
      else Losses(before, c)
  }

  /** The log holds no call of the client since `since`. */
  ghost predicate Silent(log: seq<Entry>, c: nat, since: nat) {
    forall i :: since <= i < |log| ==> log[i].actor != ByClient(c)
  }

  /** Where a client stands in its call: it has lost as often as it started over, and has had no effect yet. */
  ghost predicate Unheard(s: Net, c: nat, losses: nat) {
    match ClientAt(s, c)
    case Watching(_, attempt, _, since) => losses == attempt && Silent(s.log, c, since)
    case Loaded(_, attempt, _, since, _) => losses == attempt && Silent(s.log, c, since)
    case GaveUp(_, since) => losses == ATTEMPTS && Silent(s.log, c, since)
    case _ => true
  }

  lemma StaysUnheard(s: Net, e: Event, c: nat, losses: nat)
    requires Inv(s) && Unheard(s, c, losses)
    ensures var client := ClientAt(s, c);
            var losses' := if Loses(client, e, c) then losses + 1
                           else if e.Begin? && e.c == c && client.Idle? then 0 else losses;
            Unheard(Fire(s, e), c, losses')
  {
    hide IndexesAgree, Legal, RedisRun, RedisStep, Commit, Decide, Silent;
    if e.Script? || e.c != c {
      OtherEvent(s, e, c);
      OthersStaySilent(s, e, c);
    } else {
      NothingYet(s.log, c);
    }
  }

  lemma NothingYet(log: seq<Entry>, c: nat)
    ensures Silent(log, c, |log|)
  {
  }

  /** What others do leaves a client where it is, at most with its watched key marked. */
  lemma OtherEvent(s: Net, e: Event, c: nat)
    requires e.Script? || e.c != c
    ensures var client, client' := ClientAt(s, c), ClientAt(Fire(s, e), c);
            client' == client || ((client.Watching? || client.Loaded?) && client' == client.(dirty := true))
  {
    hide RedisStep, Commit, Decide, Touched;
  }

  lemma OthersStaySilent(s: Net, e: Event, c: nat)
    requires e.Script? || e.c != c
    ensures forall since: nat :: Silent(s.log, c, since) ==> Silent(Fire(s, e).log, c, since)
  {
    hide RedisStep, Commit, Decide, Touched, DirtyAll;
  }

  /** Five losses: a call that ended without success lost the race exactly five times, and nothing in the history is
      its doing. */
  lemma {:induction false} FiveLosses(es: seq<Event>, c: nat)
    ensures Unheard(RunNet(es), c, Losses(es, c))
    ensures ClientAt(RunNet(es), c).GaveUp? ==>
              Losses(es, c) == 5 && Silent(RunNet(es).log, c, ClientAt(RunNet(es), c).since)
    decreases |es|
  {
    hide Fire, Decide;
    if es != [] {
      FiveLosses(es[..|es| - 1], c);
      Linearizable(es[..|es| - 1]);
      StaysUnheard(RunNet(es[..|es| - 1]), es[|es| - 1], c, Losses(es[..|es| - 1], c));
    }
  }

  lemma FireComparable(s: Net, e: Event)
    requires forall i :: 0 <= i < |s.log| ==> Comparable(s.log[i].op)
    requires e.Script? ==> Comparable(e.op)
    ensures forall i :: 0 <= i < |Fire(s, e).log| ==> Comparable(Fire(s, e).log[i].op)
  {
    hide RedisStep, Commit, Decide, Touched, DirtyAll;
  }

  /** Only scripts put claims into the history, so their filters decide whether it can be compared. */
  lemma {:induction false} LoggedComparable(es: seq<Event>)
    requires forall i :: 0 <= i < |es| && es[i].Script? ==> Comparable(es[i].op)
    ensures forall i :: 0 <= i < |RunNet(es).log| ==> Comparable(RunNet(es).log[i].op)
    decreases |es|
  {
    hide Fire, Comparable;
    if es != [] {
      LoggedComparable(es[..|es| - 1]);
      FireComparable(RunNet(es[..|es| - 1]), es[|es| - 1]);
    }
  }

  /** Both results together: whatever the clients and scripts interleave, the replies and the final state
      are those of one sequential run of the in-memory store. */
  lemma ConcurrentRunRefinesMemory(es: seq<Event>)
    requires forall i :: 0 <= i < |es| && es[i].Script? ==> Comparable(es[i].op)
    ensures var s := RunNet(es);
            var mops := MemoryOps(EMPTY, OpsOf(s.log));
            && (forall i :: 0 <= i < |s.log| ==> SameCall(s.log[i].op, mops[i]))
            && BlurReplies(MemoryReplies(map[], mops)) == BlurReplies(RepliesOf(s.log))
            && Related(s.server, MemoryRun(map[], mops))
  {
    Linearizable(es);
    LoggedComparable(es);
    var s := RunNet(es);
    EmptyAgrees();
    RunRefines(EMPTY, map[], OpsOf(s.log));
  }
}

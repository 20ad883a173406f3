/** When a dispatcher's send finds room in the channel.

    A dispatcher counts the free slots, claims at most as many jobs and sends them. With one dispatcher at a time the
    room it counted is still there. A `Start` made while an earlier `Stop` is waiting adds a second dispatcher; two
    that count at the same time count the same room.
 */
module Room {
  import opened Order
  import opened Jobs
  import opened Wrappers
  import MemoryStores
  import opened Managers
  import opened Ownership

  // ---------------------------------------------------------------------------------------------
  // Totals over dispatchers

  /** The jobs a dispatcher has claimed and not sent. */
  function ToSend(phase: Phase): nat {
    if phase.Sending? then |phase.claimed| else 0
  }

  /** The room a dispatcher counts on: for the slots it may still claim, or for what it has not sent. */
  function Owed(phase: Phase): nat {
    match phase
    case Resting => 0
    case Sized(slots) => slots
    case Sending(claimed) => |claimed|
  }

  ghost function Total(ds: map<nat, Dispatcher>, f: Phase -> nat): nat
    decreases |ds|
  {
    if ds == map[] then 0
    else
      var d :| d in ds;
      f(ds[d].phase) + Total(ds - {d}, f)
  }

  lemma {:induction false} TotalSplit(ds: map<nat, Dispatcher>, d: nat, f: Phase -> nat)
    requires d in ds
    ensures Total(ds, f) == f(ds[d].phase) + Total(ds - {d}, f)
    decreases |ds|
  {
    var e :| e in ds && Total(ds, f) == f(ds[e].phase) + Total(ds - {e}, f);
    if e != d {
      TotalSplit(ds - {e}, d, f);
      TotalSplit(ds - {d}, e, f);
      assert ds - {e} - {d} == ds - {d} - {e};
    }
  }

  lemma TotalSet(ds: map<nat, Dispatcher>, d: nat, x: Dispatcher, f: Phase -> nat)
    ensures Total(ds[d := x], f) == f(x.phase) + Total(ds - {d}, f)
  {
    TotalSplit(ds[d := x], d, f);
    assert ds[d := x] - {d} == ds - {d};
  }

  lemma {:induction false} TotalSilenced(ds: map<nat, Dispatcher>, f: Phase -> nat)
    ensures Total(Silenced(ds), f) == Total(ds, f)
    decreases |ds|
  {
    if ds != map[] {
      var d :| d in ds;
      TotalSilenced(ds - {d}, f);
      TotalSplit(ds, d, f);
      TotalSplit(Silenced(ds), d, f);
      assert Silenced(ds) - {d} == Silenced(ds - {d});
    } else {
      assert Silenced(ds) == ds;
    }
  }

  lemma {:induction false} SomeUnsent(ds: map<nat, Dispatcher>) returns (d: nat)
    requires Total(ds, ToSend) > 0
    ensures d in ds && ToSend(ds[d].phase) > 0
    decreases |ds|
  {
    d :| d in ds;
    TotalSplit(ds, d, ToSend);
    if ToSend(ds[d].phase) == 0 {
      d := SomeUnsent(ds - {d});
    }
  }

  // ---------------------------------------------------------------------------------------------
  // Sends alone

  /** What is in the channel or waits to get there. */
  ghost function Load(mgr: Manager): nat {
    |mgr.channel| + Total(mgr.dispatchers, ToSend)
  }

  /** A dispatcher has a job to send and the channel is full. */
  ghost predicate Stuck(mgr: Manager) {
    |mgr.channel| >= mgr.cfg.queueBuffer && exists d :: HasUnsent(mgr, d)
  }

  /** The dispatchers can send in this order. */
  ghost predicate Sendable(mgr: Manager, order: seq<nat>)
    decreases |order|
  {
    order == [] || (CanSend(mgr, order[0]) && Sendable(Sent(mgr, order[0]), order[1..]))
  }

  ghost function AfterSends(mgr: Manager, order: seq<nat>): Manager
    requires Sendable(mgr, order)
    decreases |order|
  {
    if order == [] then mgr else AfterSends(Sent(mgr, order[0]), order[1..])
  }

  /** Sending in this order ends with a full channel and a job left to send. */
  ghost predicate GetsStuck(mgr: Manager, order: seq<nat>) {
    Sendable(mgr, order) && Stuck(AfterSends(mgr, order))
  }

  lemma SentLoad(mgr: Manager, d: nat)
    requires CanSend(mgr, d)
    ensures Load(Sent(mgr, d)) == Load(mgr) && |Sent(mgr, d).channel| == |mgr.channel| + 1
  {
    TotalSplit(mgr.dispatchers, d, ToSend);
    TotalSet(mgr.dispatchers, d, Sent(mgr, d).dispatchers[d], ToSend);
  }

  lemma {:induction false} LightNeverStuck(mgr: Manager, order: seq<nat>)
    requires Load(mgr) <= mgr.cfg.queueBuffer && Sendable(mgr, order)
    ensures !Stuck(AfterSends(mgr, order))
    decreases |order|
  {
    if order == [] {
      if d :| HasUnsent(mgr, d) {
        TotalSplit(mgr.dispatchers, d, ToSend);
      }
    } else {
      SentLoad(mgr, order[0]);
      LightNeverStuck(Sent(mgr, order[0]), order[1..]);
    }
  }

  lemma {:induction false} HeavyGetsStuck(mgr: Manager) returns (order: seq<nat>)
    requires Load(mgr) > mgr.cfg.queueBuffer && InCapacity(mgr)
    ensures Sendable(mgr, order) && Stuck(AfterSends(mgr, order))
    decreases mgr.cfg.queueBuffer - |mgr.channel|
  {
    var d := SomeUnsent(mgr.dispatchers);
    assert HasUnsent(mgr, d);
    order := [];
    if |mgr.channel| < mgr.cfg.queueBuffer {
      SentLoad(mgr, d);
      var rest := HeavyGetsStuck(Sent(mgr, d));
      order := [d] + rest;
      assert order[1..] == rest;
    }
  }

  /** However the dispatchers take turns, their sends find room without any worker receiving, exactly if what is in
      the channel and what they hold fit together. */
  lemma SendsFindRoomIff(mgr: Manager)
    requires InCapacity(mgr)
    ensures (forall order :: !GetsStuck(mgr, order)) <==> Load(mgr) <= mgr.cfg.queueBuffer
  {
    if Load(mgr) <= mgr.cfg.queueBuffer {
      forall order | Sendable(mgr, order)
        ensures !Stuck(AfterSends(mgr, order))
      {
        LightNeverStuck(mgr, order);
      }
    } else {
      var order := HeavyGetsStuck(mgr);
      assert GetsStuck(mgr, order);
    }
  }

  // ---------------------------------------------------------------------------------------------
  // Runs

  /** What is claimed, or may still be claimed, fits into the free part of the channel. */
  ghost predicate Fits(mgr: Manager) {
    |mgr.channel| + Total(mgr.dispatchers, Owed) <= mgr.cfg.queueBuffer
  }

  /** Dispatcher `d` counts the room while another one counts on it. */
  ghost predicate Overlaps(mgr: Manager, action: Action) {
    action.Dispatch? && action.move.CountSlots? && Total(mgr.dispatchers - {action.d}, Owed) > 0
  }

  lemma {:induction false} OwedCoversUnsent(ds: map<nat, Dispatcher>)
    ensures Total(ds, ToSend) <= Total(ds, Owed)
    decreases |ds|
  {
    if ds != map[] {
      var d :| d in ds;
      OwedCoversUnsent(ds - {d});
      TotalSplit(ds, d, ToSend);
      TotalSplit(ds, d, Owed);
    }
  }

  /** From a state that fits, counting keeps it so exactly if no other dispatcher counts on room. */
  lemma CountFitsIff(mgr: Manager, d: nat)
    requires Fits(mgr) && d in mgr.dispatchers && IsIdle(mgr.dispatchers[d].phase)
              && |mgr.channel| < mgr.cfg.queueBuffer
    ensures Fits(InPhase(mgr, d, Sized(mgr.cfg.queueBuffer - |mgr.channel|))) <==>
              !Overlaps(mgr, Dispatch(d, CountSlots))
  {
    var next := InPhase(mgr, d, Sized(mgr.cfg.queueBuffer - |mgr.channel|));
    TotalSet(mgr.dispatchers, d, next.dispatchers[d], Owed);
  }

  lemma PhaseFits(mgr: Manager, d: nat, phase: Phase)
    requires Fits(mgr) && d in mgr.dispatchers && Owed(phase) <= Owed(mgr.dispatchers[d].phase)
    ensures Fits(InPhase(mgr, d, phase))
  {
    TotalSplit(mgr.dispatchers, d, Owed);
    TotalSet(mgr.dispatchers, d, InPhase(mgr, d, phase).dispatchers[d], Owed);
  }

  lemma SentFits(mgr: Manager, d: nat)
    requires Fits(mgr) && CanSend(mgr, d)
    ensures Fits(Sent(mgr, d))
  {
    TotalSplit(mgr.dispatchers, d, Owed);
    TotalSet(mgr.dispatchers, d, Sent(mgr, d).dispatchers[d], Owed);
  }

  lemma DispatchKeepsFits(w: World, m: nat, d: nat, move: Move, w': World)
    requires m in w.managers && ManagerStep(w, m, w.managers[m], Dispatch(d, move), w')
    requires Fits(w.managers[m]) && !Overlaps(w.managers[m], Dispatch(d, move))
    ensures m in w'.managers && Fits(w'.managers[m])
  {
    hide Fits, Overlaps;
    var mgr := w.managers[m];
    match move
    case CountSlots => CountFitsIff(mgr, d);
    case Skip => PhaseFits(mgr, d, Resting);
    case ClaimJobs(_, claimed) => PhaseFits(mgr, d, Sending(claimed));
    case LoseClaim(_, _) => PhaseFits(mgr, d, Resting);
    case Send => SentFits(mgr, d);
    case Abandon => PhaseFits(mgr, d, Resting);
    case Exit => ExitFits(mgr, d);
  }

  lemma ExitFits(mgr: Manager, d: nat)
    requires Fits(mgr) && d in mgr.dispatchers
    ensures Fits(mgr.(dispatchers := mgr.dispatchers - {d}))
  {
    TotalSplit(mgr.dispatchers, d, Owed);
  }

  lemma StartFits(mgr: Manager, d: nat)
    requires Fits(mgr) && d !in mgr.dispatchers
    ensures Fits(mgr.(running := true, dispatchers := mgr.dispatchers[d := Dispatcher(Resting, true)]))
  {
    TotalSet(mgr.dispatchers, d, Dispatcher(Resting, true), Owed);
    assert mgr.dispatchers - {d} == mgr.dispatchers;
  }

  lemma ManagerKeepsFits(w: World, m: nat, action: Action, w': World)
    requires m in w.managers && ManagerStep(w, m, w.managers[m], action, w')
    requires Fits(w.managers[m]) && !Overlaps(w.managers[m], action)
    ensures m in w'.managers ==> Fits(w'.managers[m])
  {
    var mgr := w.managers[m];
    if action.Dispatch? {
      DispatchKeepsFits(w, m, action.d, action.move, w');
    } else if action.Start? {
      StartFits(mgr, action.d);
    } else if action.Stop? || action.CancelContext? {
      TotalSilenced(mgr.dispatchers, Owed);
    }
  }

  /** A step inside manager `m` that counts while another dispatcher counts on the room. */
  ghost predicate OverlapsAt(w: World, e: Event, m: nat) {
    e.Inside? && e.m == m && m in w.managers && Overlaps(w.managers[m], e.action)
  }

  lemma OtherStepsKeep(w: World, e: Event, w': World, m: nat)
    requires Step(w, e, w') && !(e.Inside? && e.m == m)
    ensures m in w.managers ==> m in w'.managers && w'.managers[m] == w.managers[m]
    ensures m !in w.managers && m in w'.managers ==> w'.managers[m].channel == [] && w'.managers[m].dispatchers == map[]
  {
    hide ClaimContract, PruneContract, DispatchStep, BuildJob, Updated;
    if e.Inside? && e.action.Dispatch? {
      DispatchKeepsOthers(w, e.m, e.action.d, e.action.move, w', m);
    }
  }

  lemma DispatchKeepsOthers(w: World, m: nat, d: nat, move: Move, w': World, n: nat)
    requires m in w.managers && ManagerStep(w, m, w.managers[m], Dispatch(d, move), w') && n != m
    ensures n in w.managers <==> n in w'.managers
    ensures n in w.managers ==> w'.managers[n] == w.managers[n]
  {
    hide ClaimContract;
  }

  /** Steps one after another, from any world. */
  ghost predicate IsPath(ws: seq<World>, es: seq<Event>) {
    |ws| == |es| + 1 && forall i :: 0 <= i < |es| ==> Step(ws[i], es[i], ws[i + 1])
  }

  lemma {:induction false} PathFits(ws: seq<World>, es: seq<Event>, i: nat, m: nat)
    requires IsPath(ws, es) && i < |ws|
    requires m in ws[0].managers ==> Fits(ws[0].managers[m])
    requires forall k :: 0 <= k < i ==> !OverlapsAt(ws[k], es[k], m)
    ensures m in ws[i].managers ==> Fits(ws[i].managers[m])
  {
    hide Fits, ManagerStep;
    if i > 0 {
      PathFits(ws, es, i - 1, m);
      var w, e, w' := ws[i - 1], es[i - 1], ws[i];
      if e.Inside? && e.m == m {
        ManagerKeepsFits(w, m, e.action, w');
      } else {
        OtherStepsKeep(w, e, w', m);
        if m !in w.managers && m in w'.managers {
          NewFits(w'.managers[m]);
        }
      }
    }
  }

  lemma NewFits(mgr: Manager)
    requires mgr.channel == [] && mgr.dispatchers == map[]
    ensures Fits(mgr)
  {
  }

  /** In every run in which no dispatcher of a manager counted while another one counted on the room, a dispatcher
      with claimed jobs left finds room, however long it took to get there. */
  lemma SendNeverBlocks(ws: seq<World>, es: seq<Event>, i: nat, m: nat, d: nat)
    requires IsRun(ws, es) && i < |ws|
    requires forall k :: 0 <= k < i ==> !OverlapsAt(ws[k], es[k], m)
    requires m in ws[i].managers && HasUnsent(ws[i].managers[m], d)
    ensures |ws[i].managers[m].channel| < ws[i].managers[m].cfg.queueBuffer
    ensures Load(ws[i].managers[m]) <= ws[i].managers[m].cfg.queueBuffer
    ensures exists w' :: Step(ws[i], Inside(m, Dispatch(d, Send)), w')
  {
    PathFits(ws, es, i, m);
    var w, mgr := ws[i], ws[i].managers[m];
    TotalSplit(mgr.dispatchers, d, Owed);
    OwedCoversUnsent(mgr.dispatchers);
    assert Step(w, Inside(m, Dispatch(d, Send)), With(w, m, Sent(mgr, d)));
  }

  // ---------------------------------------------------------------------------------------------
  // One dispatcher at a time

  /** A start that finds no dispatcher of an earlier one: `Stop` has returned. */
  ghost predicate StartsClean(w: World, e: Event, m: nat) {
    e.Inside? && e.m == m && e.action.Start? && m in w.managers ==> w.managers[m].dispatchers == map[]
  }

  ghost predicate AtMostOne(ds: map<nat, Dispatcher>) {
    forall d, e :: d in ds && e in ds ==> d == e
  }

  lemma ManagerKeepsOne(w: World, m: nat, action: Action, w': World)
    requires m in w.managers && ManagerStep(w, m, w.managers[m], action, w') && AtMostOne(w.managers[m].dispatchers)
    requires action.Start? ==> w.managers[m].dispatchers == map[]
    ensures m in w'.managers ==> AtMostOne(w'.managers[m].dispatchers)
    ensures action.Dispatch? ==> action.d in w.managers[m].dispatchers
  {
    hide ClaimContract, BuildJob, Updated, DispatchStep;
    if action.Dispatch? {
      DispatchAddsNone(w, m, action.d, action.move, w');
    }
  }

  lemma DispatchAddsNone(w: World, m: nat, d: nat, move: Move, w': World)
    requires m in w.managers && ManagerStep(w, m, w.managers[m], Dispatch(d, move), w')
    ensures m in w'.managers && w'.managers[m].dispatchers.Keys <= w.managers[m].dispatchers.Keys
  {
    hide ClaimContract;
  }

  lemma {:induction false} OneAtATime(ws: seq<World>, es: seq<Event>, i: nat, m: nat)
    requires IsRun(ws, es) && i < |ws|
    requires forall k :: 0 <= k < i ==> StartsClean(ws[k], es[k], m)
    ensures m in ws[i].managers ==> AtMostOne(ws[i].managers[m].dispatchers)
    ensures forall k :: 0 <= k < i ==> !OverlapsAt(ws[k], es[k], m)
  {
    hide ManagerStep, AtMostOne, Overlaps;
    if i > 0 {
      OneAtATime(ws, es, i - 1, m);
      var w, e, w' := ws[i - 1], es[i - 1], ws[i];
      if e.Inside? && e.m == m {
        ManagerKeepsOne(w, m, e.action, w');
        OneNeverOverlaps(w.managers[m], e.action);
      } else {
        OtherStepsKeep(w, e, w', m);
        NoneIsOne();
      }
    }
  }

  lemma NoneIsOne()
    ensures AtMostOne(map[])
  {
  }

  lemma OneNeverOverlaps(mgr: Manager, action: Action)
    requires AtMostOne(mgr.dispatchers)
    ensures (action.Dispatch? ==> action.d in mgr.dispatchers) ==> !Overlaps(mgr, action)
  {
    if action.Dispatch? && action.d in mgr.dispatchers {
      assert mgr.dispatchers - {action.d} == map[];
    }
  }

  /** For callers: if a manager is only ever started again after its `Stop` returned, its sends never block. */
  lemma SendNeverBlocksAfterStop(ws: seq<World>, es: seq<Event>, i: nat, m: nat, d: nat)
    requires IsRun(ws, es) && i < |ws|
    requires forall k :: 0 <= k < i ==> StartsClean(ws[k], es[k], m)
    requires m in ws[i].managers && HasUnsent(ws[i].managers[m], d)
    ensures |ws[i].managers[m].channel| < ws[i].managers[m].cfg.queueBuffer
  {
    hide ManagerStep, Overlaps;
    OneAtATime(ws, es, i, m);
    SendNeverBlocks(ws, es, i, m, d);
  }

  // ---------------------------------------------------------------------------------------------
  // What is to come

  /** The handler types in order, as the dispatcher asks for them. */
  ghost function Kinds(handlers: map<string, Handler>): seq<string> {
    var ks := Sort(set kind | kind in handlers :: Key(0, kind));
    seq(|ks|, i requires 0 <= i < |ks| => ks[i].id)
  }

  lemma KindsAre(handlers: map<string, Handler>, kind: string)
    ensures kind in Kinds(handlers) <==> kind in handlers
  {
    hide Sort, StrLt, Ascending;
    var keys := set kind | kind in handlers :: Key(0, kind);
    var ks := Sort(keys);
    if kind in handlers {
      assert Key(0, kind) in Elems(ks);
      var i :| 0 <= i < |ks| && ks[i] == Key(0, kind);
      assert Kinds(handlers)[i] == kind;
    }
    if kind in Kinds(handlers) {
      var i :| 0 <= i < |ks| && ks[i].id == kind;
      assert ks[i] in Elems(ks);
    }
  }

  function FilterOf(kinds: seq<string>): ClaimFilter {
    ClaimFilter([], kinds)
  }

  /** A claim is the one the in-memory store answers. */
  ghost predicate RealClaim(w: World, e: Event, w': World) {
    IsClaim(e) && Counted(w, e.m, e.action.d) ==>
      var move, f := e.action.move, FilterOf(Kinds(w.managers[e.m].handlers));
      (w'.store, move.claimed) == MemoryStores.ClaimResult(w.store, move.now, SlotsOf(w, e.m, e.action.d), f)
  }

  /** No worker of manager `m` receives, and none of its dispatchers counts. */
  predicate Unaided(e: Event, m: nat) {
    !(e.Inside? && e.m == m && (e.action.Receive? || (e.action.Dispatch? && e.action.move.CountSlots?)))
  }

  /** A path from `w` without help for manager `m`, on which every claim is answered by the in-memory store. */
  ghost predicate Continues(w: World, m: nat, ws: seq<World>, es: seq<Event>) {
    && IsPath(ws, es) && ws[0] == w
    && (forall i :: 0 <= i < |es| ==> Unaided(es[i], m) && RealClaim(ws[i], es[i], ws[i + 1]))
  }

  /** ... that ends with a job to send and a full channel. */
  ghost predicate Blocks(w: World, m: nat, ws: seq<World>, es: seq<Event>) {
    Continues(w, m, ws, es) && m in ws[|es|].managers && Stuck(ws[|es|].managers[m])
  }

  ghost predicate CanBlock(w: World, m: nat) {
    exists ws, es :: Blocks(w, m, ws, es)
  }

  lemma NoSteps(w: World, m: nat)
    ensures Continues(w, m, [w], [])
  {
  }

  /** One step, and then a path. */
  lemma Prepend(w: World, e: Event, w1: World, m: nat, ws: seq<World>, es: seq<Event>)
    requires Step(w, e, w1) && Unaided(e, m) && RealClaim(w, e, w1) && Continues(w1, m, ws, es)
    ensures Continues(w, m, [w] + ws, [e] + es) && ([w] + ws)[|[e] + es|] == ws[|es|]
  {
    hide Step, RealClaim, Unaided;
    var ws', es' := [w] + ws, [e] + es;
    forall i | 0 <= i < |es'|
      ensures Step(ws'[i], es'[i], ws'[i + 1]) && Unaided(es'[i], m) && RealClaim(ws'[i], es'[i], ws'[i + 1])
    {
      if i > 0 {
        assert ws'[i] == ws[i - 1] && es'[i] == es[i - 1] && ws'[i + 1] == ws[i];
      }
    }
  }

  lemma BlocksBefore(w: World, e: Event, w1: World, m: nat)
    requires Step(w, e, w1) && Unaided(e, m) && RealClaim(w, e, w1) && CanBlock(w1, m)
    ensures CanBlock(w, m)
  {
    hide Step, RealClaim, Unaided, Continues, Stuck;
    var ws, es :| Blocks(w1, m, ws, es);
    ContinuesShape(w1, m, ws, es);
    Prepend(w, e, w1, m, ws, es);
    ContinuesShape(w, m, [w] + ws, [e] + es);
    assert Blocks(w, m, [w] + ws, [e] + es);
  }

  lemma ContinuesShape(w: World, m: nat, ws: seq<World>, es: seq<Event>)
    requires Continues(w, m, ws, es)
    ensures |ws| == |es| + 1
  {
  }

  lemma FitsNotStuck(mgr: Manager)
    requires Fits(mgr)
    ensures !Stuck(mgr)
  {
    if d :| HasUnsent(mgr, d) {
      TotalSplit(mgr.dispatchers, d, Owed);
    }
  }

  /** From a state that fits no path without overlapping counts blocks, whatever else happens on it. */
  lemma FitsNeverBlocks(w: World, m: nat, ws: seq<World>, es: seq<Event>)
    requires m in w.managers && Fits(w.managers[m]) && IsPath(ws, es) && ws[0] == w
    requires forall k :: 0 <= k < |es| ==> !OverlapsAt(ws[k], es[k], m)
    ensures m in ws[|es|].managers ==> !Stuck(ws[|es|].managers[m])
  {
    hide Step, Fits, Stuck, OverlapsAt;
    PathFits(ws, es, |es|, m);
    if m in ws[|es|].managers {
      FitsNotStuck(ws[|es|].managers[m]);
    }
  }

  // ---------------------------------------------------------------------------------------------
  // Room that was counted twice is missed in the end

  lemma StuckCanBlock(w: World, m: nat)
    requires m in w.managers && Stuck(w.managers[m])
    ensures CanBlock(w, m)
  {
    hide Stuck;
    NoSteps(w, m);
    assert Blocks(w, m, [w], []);
  }

  lemma {:induction false} SendsCanBlock(w: World, m: nat, order: seq<nat>)
    requires m in w.managers && GetsStuck(w.managers[m], order)
    ensures CanBlock(w, m)
    decreases |order|
  {
    hide CanBlock, Stuck;
    if order == [] {
      StuckCanBlock(w, m);
    } else {
      var d := order[0];
      var w1 := With(w, m, Sent(w.managers[m], d));
      assert Step(w, Inside(m, Dispatch(d, Send)), w1);
      SendsCanBlock(w1, m, order[1..]);
      BlocksBefore(w, Inside(m, Dispatch(d, Send)), w1, m);
    }
  }

  function SizedOne(phase: Phase): nat {
    if phase.Sized? then 1 else 0
  }

  lemma {:induction false} NoneSized(ds: map<nat, Dispatcher>)
    requires forall d :: d in ds ==> !ds[d].phase.Sized?
    ensures Total(ds, ToSend) == Total(ds, Owed)
    decreases |ds|
  {
    if ds != map[] {
      var d :| d in ds;
      NoneSized(ds - {d});
      TotalSplit(ds, d, ToSend);
      TotalSplit(ds, d, Owed);
    }
  }

  /** An id longer than every stored one. */
  lemma {:induction false} LongestId(ids: set<string>) returns (n: nat)
    ensures forall id :: id in ids ==> |id| <= n
    decreases |ids|
  {
    n := 0;
    if ids != {} {
      var id :| id in ids;
      n := LongestId(ids - {id});
      assert forall other :: other in ids ==> other == id || other in ids - {id};
      n := if |id| > n then |id| else n;
    }
  }

  lemma FreshId(store: Store) returns (id: string)
    ensures id != "" && id !in store
  {
    var n := LongestId(store.Keys);
    id := seq(n + 1, i => 'x');
  }

  /** A manager that handles the type `kind`. */
  ghost predicate Serving(w: World, m: nat, kind: string) {
    m in w.managers && kind != "" && kind in w.managers[m].handlers
  }

  ghost function EligibleNow(w: World, m: nat): set<Key>
    requires m in w.managers
  {
    MemoryStores.Eligible(w.store, 0, FilterOf(Kinds(w.managers[m].handlers)))
  }

  function Asking(id: string, kind: string): Request {
    Request(id, kind, "", "", map[], 0, 0, None)
  }

  /** Enqueueing a job of a handled type makes one more job eligible and changes no manager. */
  lemma OneMoreEligible(w: World, m: nat, kind: string) returns (e: Event, w': World)
    requires Inv(w) && Serving(w, m, kind)
    ensures Step(w, e, w') && Unaided(e, m) && !IsClaim(e) && Inv(w')
    ensures w'.managers == w.managers && |EligibleNow(w', m)| == |EligibleNow(w, m)| + 1
  {
    hide Inv;
    var mgr := w.managers[m];
    var id := FreshId(w.store);
    var j := BuildJob(mgr.cfg, mgr.handlers, Asking(id, kind), "", 0).value;
    e := Inside(m, Enqueue(Asking(id, kind), "", 0));
    w' := w.(store := w.store[id := j], starts := w.starts[id := 0]);
    assert Step(w, e, w');
    StepKeepsInv(w, e, w');
    KindsAre(mgr.handlers, kind);
    FreshIsEligible(w.store, j, FilterOf(Kinds(mgr.handlers)));
  }

  lemma FreshIsEligible(store: Store, j: Job, f: ClaimFilter)
    requires j.id !in store && MemoryStores.CanClaim(j, 0, f)
    ensures |MemoryStores.Eligible(store[j.id := j], 0, f)| == |MemoryStores.Eligible(store, 0, f)| + 1
  {
    var before, after := MemoryStores.Eligible(store, 0, f), MemoryStores.Eligible(store[j.id := j], 0, f);
    hide MemoryStores.CanClaim;
    var store' := store[j.id := j];
    forall k
      ensures k in after <==> k in before || k == KeyOf(j)
    {
      if k in before {
        assert k.id in store && KeyAt(store', k.id) == k;
      }
      if k == KeyOf(j) {
        assert KeyAt(store', j.id) == k;
      }
    }
    assert KeyOf(j) !in before && after == before + {KeyOf(j)};
  }

  /** Of the managers only dispatcher `d` of `m` changed, which now has `claimed` to send. */
  ghost predicate ManagersSending(w: World, m: nat, d: nat, claimed: seq<Job>, w': World)
    requires Counted(w, m, d)
  {
    w'.managers == w.managers[m := InPhase(w.managers[m], d, Sending(claimed))]
  }

  /** With enough eligible jobs a dispatcher claims as many as it counted. */
  lemma ClaimsAll(w: World, m: nat, d: nat, kind: string) returns (e: Event, w': World)
    requires Inv(w) && Serving(w, m, kind) && Counted(w, m, d) && |EligibleNow(w, m)| >= SlotsOf(w, m, d)
    ensures Step(w, e, w') && Unaided(e, m) && RealClaim(w, e, w')
    ensures exists claimed :: |claimed| == SlotsOf(w, m, d) && ManagersSending(w, m, d, claimed, w')
  {
    hide Inv, MemoryStores.ClaimResult, ClaimContract, MemoryStores.Eligible, Kinds;
    var mgr, slots := w.managers[m], SlotsOf(w, m, d);
    var f := FilterOf(Kinds(mgr.handlers));
    var (store', claimed) := MemoryStores.ClaimResult(w.store, 0, slots, f);
    InvKeyed(w);
    MemoryStores.ClaimMeetsContract(w.store, 0, slots, f);
    ClaimedHandled(w, m, kind, slots, store', claimed);
    e := Inside(m, Dispatch(d, ClaimJobs(0, claimed)));
    w' := With(w, m, InPhase(mgr, d, Sending(claimed))).(store := store');
    assert Step(w, e, w');
    assert ManagersSending(w, m, d, claimed, w');
  }

  lemma InvKeyed(w: World)
    requires Inv(w)
    ensures Keyed(w.store)
  {
    hide SoleHolders, HeldAreRunning, StartsCounted, InCapacity, InBudget;
  }

  lemma ClaimedHandled(w: World, m: nat, kind: string, slots: nat, store': Store, claimed: seq<Job>)
    requires Keyed(w.store) && Serving(w, m, kind) && |EligibleNow(w, m)| >= slots
    requires (store', claimed) ==
             MemoryStores.ClaimResult(w.store, 0, slots, FilterOf(Kinds(w.managers[m].handlers)))
    ensures Handles(w.managers[m].handlers, claimed) && |claimed| == slots
  {
    hide MemoryStores.ClaimResult, MemoryStores.Eligible, MemoryStores.CanClaim, Kinds, ClaimContract;
    var handlers := w.managers[m].handlers;
    var f := FilterOf(Kinds(handlers));
    if slots == 0 {
      NothingClaimed(w.store, f);
    } else {
      MemoryStores.ClaimOptimum(w.store, 0, slots, f, store', claimed);
      forall i | 0 <= i < |claimed|
        ensures claimed[i].kind in handlers
      {
        ClaimedKind(w.store, slots, store', claimed, i);
        FilterAdmits(handlers, kind, w.store[claimed[i].id]);
      }
    }
  }

  lemma NothingClaimed(store: Store, f: ClaimFilter)
    ensures MemoryStores.ClaimResult(store, 0, 0, f) == (store, [])
  {
  }

  lemma ClaimedKind(store: Store, slots: nat, store': Store, claimed: seq<Job>, i: nat)
    requires ClaimContract(store, 0, slots, store', claimed) && i < |claimed|
    ensures claimed[i].id in store && claimed[i].kind == store[claimed[i].id].kind
  {
  }

  lemma FilterAdmits(handlers: map<string, Handler>, kind: string, j: Job)
    requires kind != "" && kind in handlers && MemoryStores.CanClaim(j, 0, FilterOf(Kinds(handlers)))
    ensures j.kind in handlers
  {
    hide Kinds;
    KindsAre(handlers, kind);
    KindsAre(handlers, j.kind);
  }

  /** From a state that does not fit, a send can block: the dispatchers that counted can claim all they counted. */
  lemma {:induction false} UnfitCanBlock(w: World, m: nat, kind: string)
    requires Inv(w) && Serving(w, m, kind) && !Fits(w.managers[m])
    ensures CanBlock(w, m)
    decreases Total(w.managers[m].dispatchers, SizedOne), 1, 0
  {
    hide CanBlock, Inv;
    var mgr := w.managers[m];
    if d :| d in mgr.dispatchers && mgr.dispatchers[d].phase.Sized? {
      SlotsCanBlock(w, m, kind, d);
    } else {
      NoneSized(mgr.dispatchers);
      InvCapacity(w, m);
      var order := HeavyGetsStuck(mgr);
      SendsCanBlock(w, m, order);
    }
  }

  lemma InvCapacity(w: World, m: nat)
    requires Inv(w) && m in w.managers
    ensures InCapacity(w.managers[m])
  {
    hide SoleHolders, HeldAreRunning, StartsCounted, InBudget;
  }

  lemma {:induction false} SlotsCanBlock(w: World, m: nat, kind: string, d: nat)
    requires Inv(w) && Serving(w, m, kind) && !Fits(w.managers[m]) && Counted(w, m, d)
    ensures CanBlock(w, m)
    decreases Total(w.managers[m].dispatchers, SizedOne), 0, SlotsOf(w, m, d) - |EligibleNow(w, m)|
  {
    hide CanBlock, Inv, Step, EligibleNow, RealClaim, Fits;
    if |EligibleNow(w, m)| < SlotsOf(w, m, d) {
      var e, w' := OneMoreEligible(w, m, kind);
      SlotsCanBlock(w', m, kind, d);
      NoClaimIsReal(w, e, w');
      BlocksBefore(w, e, w', m);
    } else {
      var e, w' := ClaimsAll(w, m, d, kind);
      var claimed :| |claimed| == SlotsOf(w, m, d) && ManagersSending(w, m, d, claimed, w');
      ClaimStaysUnfit(w.managers[m], d, claimed);
      StepKeepsInv(w, e, w');
      UnfitCanBlock(w', m, kind);
      BlocksBefore(w, e, w', m);
    }
  }

  lemma NoClaimIsReal(w: World, e: Event, w': World)
    requires !IsClaim(e)
    ensures RealClaim(w, e, w')
  {
  }

  lemma ClaimStaysUnfit(mgr: Manager, d: nat, claimed: seq<Job>)
    requires d in mgr.dispatchers && mgr.dispatchers[d].phase == Sized(|claimed|)
    ensures Fits(InPhase(mgr, d, Sending(claimed))) <==> Fits(mgr)
    ensures Total(InPhase(mgr, d, Sending(claimed)).dispatchers, SizedOne) < Total(mgr.dispatchers, SizedOne)
  {
    var next := InPhase(mgr, d, Sending(claimed));
    TotalSplit(mgr.dispatchers, d, Owed);
    TotalSet(mgr.dispatchers, d, next.dispatchers[d], Owed);
    TotalSplit(mgr.dispatchers, d, SizedOne);
    TotalSet(mgr.dispatchers, d, next.dispatchers[d], SizedOne);
  }

  /** A manager without handlers can still get one. */
  lemma RegisterCanBlock(w: World, m: nat)
    requires Inv(w) && m in w.managers && !Fits(w.managers[m])
    ensures CanBlock(w, m)
  {
    hide CanBlock, Inv, RealClaim;
    if kind :| Serving(w, m, kind) {
      UnfitCanBlock(w, m, kind);
    } else {
      var mgr, kind, handler := w.managers[m], "work", Handler("", 0, 0);
      var e := Inside(m, Register(kind, handler));
      var w' := With(w, m, mgr.(handlers := mgr.handlers[kind := handler]));
      assert Step(w, e, w');
      StepKeepsInv(w, e, w');
      UnfitCanBlock(w', m, kind);
      NoClaimIsReal(w, e, w');
      BlocksBefore(w, e, w', m);
    }
  }

  /** Exactly the states that do not fit can come to block a send without a worker receiving or a dispatcher
      counting. */
  lemma CanBlockIff(w: World, m: nat)
    requires Inv(w) && m in w.managers
    ensures CanBlock(w, m) <==> !Fits(w.managers[m])
  {
    hide Inv, Fits, Stuck, Step, RealClaim;
    if !Fits(w.managers[m]) {
      RegisterCanBlock(w, m);
    } else if ws, es :| Blocks(w, m, ws, es) {
      UnaidedNeverOverlaps(w, m, ws, es);
      FitsNeverBlocks(w, m, ws, es);
      assert false;
    }
  }

  lemma UnaidedNeverOverlaps(w: World, m: nat, ws: seq<World>, es: seq<Event>)
    requires Continues(w, m, ws, es)
    ensures forall k :: 0 <= k < |es| ==> !OverlapsAt(ws[k], es[k], m)
  {
    hide Step, RealClaim;
  }

  /** When a dispatcher counts in a state that fits, a send can block later on, without a worker receiving or another
      count, exactly if another dispatcher counts on the same room. */
  lemma CountCanBlockIff(w: World, m: nat, d: nat, w': World)
    requires Inv(w) && m in w.managers && Fits(w.managers[m]) && Step(w, Inside(m, Dispatch(d, CountSlots)), w')
    ensures CanBlock(w', m) <==> Overlaps(w.managers[m], Dispatch(d, CountSlots))
  {
    StepKeepsInv(w, Inside(m, Dispatch(d, CountSlots)), w');
    hide Inv, CanBlock, Fits, Overlaps;
    CountFitsIff(w.managers[m], d);
    CanBlockIff(w', m);
  }

  /** Over runs: as long as no counts overlapped, a step opens the way to a blocked send exactly if it is a count that
      overlaps. */
  lemma RunCanBlockIff(ws: seq<World>, es: seq<Event>, i: nat, m: nat)
    requires IsRun(ws, es) && i < |es| && m in ws[i + 1].managers
    requires forall k :: 0 <= k < i ==> !OverlapsAt(ws[k], es[k], m)
    ensures CanBlock(ws[i + 1], m) <==> OverlapsAt(ws[i], es[i], m)
  {
    hide Inv, Fits, CanBlock, Overlaps, ManagerStep;
    RunKeepsInv(ws, es, i);
    RunKeepsInv(ws, es, i + 1);
    PathFits(ws, es, i, m);
    if OverlapsAt(ws[i], es[i], m) {
      OverlapIsCount(ws[i].managers[m], es[i].action);
      CountCanBlockIff(ws[i], m, es[i].action.d, ws[i + 1]);
    } else {
      PathFits(ws, es, i + 1, m);
      CanBlockIff(ws[i + 1], m);
    }
  }

  lemma OverlapIsCount(mgr: Manager, action: Action)
    requires Overlaps(mgr, action)
    ensures action == Dispatch(action.d, CountSlots)
  {
  }

  // ---------------------------------------------------------------------------------------------
  // A run that blocks, for every configuration

  /** The world of one manager and no job. */
  function Bare(mgr: Manager): World {
    World(map[], map[0 := mgr], map[])
  }

  lemma BareSet(mgr: Manager, next: Manager)
    ensures With(Bare(mgr), 0, next) == Bare(next)
  {
  }

  /** A run that ends in `w`, on which every claim is answered by the in-memory store. */
  ghost predicate RunTo(ws: seq<World>, es: seq<Event>, w: World) {
    IsRun(ws, es) && ws[|es|] == w && forall i :: 0 <= i < |es| ==> RealClaim(ws[i], es[i], ws[i + 1])
  }

  lemma Extend(ws: seq<World>, es: seq<Event>, w: World, e: Event, w': World)
    returns (ws': seq<World>, es': seq<Event>)
    requires RunTo(ws, es, w) && Step(w, e, w') && !IsClaim(e)
    ensures RunTo(ws', es', w')
  {
    hide Step, RealClaim;
    NoClaimIsReal(w, e, w');
    ws', es' := ws + [w'], es + [e];
  }

  lemma EmptyRun(w: World)
    requires Init(w)
    ensures RunTo([w], [], w)
  {
  }

  function Configured(cfg: Settings, kind: string, handler: Handler): Manager {
    Manager(cfg, map[kind := handler], false, map[], [], map[])
  }

  /** A manager joins and registers a handler. */
  lemma Opening(cfg: Settings, kind: string, handler: Handler) returns (ws: seq<World>, es: seq<Event>)
    requires kind != ""
    ensures RunTo(ws, es, Bare(Configured(cfg, kind, handler)))
  {
    hide RunTo;
    var w0, joined := World(map[], map[], map[]), Manager(cfg, map[], false, map[], [], map[]);
    EmptyRun(w0);
    UsableIsKept(cfg);
    assert Step(w0, Join(0, cfg), Bare(joined));
    ws, es := Extend([w0], [], w0, Join(0, cfg), Bare(joined));
    var next := Configured(cfg, kind, handler);
    BareSet(joined, next);
    assert joined.handlers[kind := handler] == next.handlers;
    assert Step(Bare(joined), Inside(0, Register(kind, handler)), Bare(next));
    ws, es := Extend(ws, es, Bare(joined), Inside(0, Register(kind, handler)), Bare(next));
  }

  lemma StartBare(mgr: Manager, d: nat) returns (next: Manager)
    requires !mgr.running && d !in mgr.dispatchers
    ensures next == mgr.(running := true, dispatchers := mgr.dispatchers[d := Dispatcher(Resting, true)])
    ensures Step(Bare(mgr), Inside(0, Start(d)), Bare(next))
  {
    next := mgr.(running := true, dispatchers := mgr.dispatchers[d := Dispatcher(Resting, true)]);
    BareSet(mgr, next);
  }

  lemma StopBare(mgr: Manager) returns (next: Manager)
    ensures next == mgr.(running := false, dispatchers := Silenced(mgr.dispatchers))
    ensures Step(Bare(mgr), Inside(0, Stop), Bare(next))
  {
    next := mgr.(running := false, dispatchers := Silenced(mgr.dispatchers));
    BareSet(mgr, next);
  }

  lemma CountBare(mgr: Manager, d: nat) returns (next: Manager)
    requires d in mgr.dispatchers && IsIdle(mgr.dispatchers[d].phase) && mgr.channel == []
    ensures next == InPhase(mgr, d, Sized(mgr.cfg.queueBuffer))
    ensures Step(Bare(mgr), Inside(0, Dispatch(d, CountSlots)), Bare(next))
  {
    next := InPhase(mgr, d, Sized(mgr.cfg.queueBuffer));
    BareSet(mgr, next);
  }

  /** The manager is started, counts, is stopped and, while `Stop` waits, is started again and counts again. */
  lemma DoubleCount(cfg: Settings, kind: string, handler: Handler)
    returns (ws: seq<World>, es: seq<Event>, mgr: Manager)
    requires kind != ""
    ensures RunTo(ws, es, Bare(mgr)) && kind in mgr.handlers && !Fits(mgr)
  {
    hide RunTo, Bare, Step, Fits;
    ws, es := Opening(cfg, kind, handler);
    var m0 := Configured(cfg, kind, handler);
    var m1 := StartBare(m0, 0);
    ws, es := Extend(ws, es, Bare(m0), Inside(0, Start(0)), Bare(m1));
    var m2 := CountBare(m1, 0);
    ws, es := Extend(ws, es, Bare(m1), Inside(0, Dispatch(0, CountSlots)), Bare(m2));
    var m3 := StopBare(m2);
    ws, es := Extend(ws, es, Bare(m2), Inside(0, Stop), Bare(m3));
    var m4 := StartBare(m3, 1);
    ws, es := Extend(ws, es, Bare(m3), Inside(0, Start(1)), Bare(m4));
    mgr := CountBare(m4, 1);
    ws, es := Extend(ws, es, Bare(m4), Inside(0, Dispatch(1, CountSlots)), Bare(mgr));
    CountedTwice(mgr);
  }

  lemma CountedTwice(mgr: Manager)
    requires 0 in mgr.dispatchers && 1 in mgr.dispatchers
    requires mgr.dispatchers[0].phase == mgr.dispatchers[1].phase == Sized(mgr.cfg.queueBuffer)
    ensures !Fits(mgr)
  {
    TotalSplit(mgr.dispatchers, 0, Owed);
    TotalSplit(mgr.dispatchers - {0}, 1, Owed);
  }

  /** Without the condition sends do block: with any configuration and any handler there is a run, with a `Start` made
      while `Stop` waits and every claim answered as the in-memory store answers it, to a state where a dispatcher
      holds a claimed job and the channel is full, so that no dispatcher can send. */
  lemma OverlapBlocks(cfg: Settings, kind: string, handler: Handler) returns (ws: seq<World>, es: seq<Event>)
    requires kind != ""
    ensures |ws| == |es| + 1 && RunTo(ws, es, ws[|es|]) && 0 in ws[|es|].managers && Stuck(ws[|es|].managers[0])
    ensures forall d, w' :: !Step(ws[|es|], Inside(0, Dispatch(d, Send)), w')
  {
    hide Inv, Step, Fits, Stuck, RealClaim;
    var mgr;
    ws, es, mgr := DoubleCount(cfg, kind, handler);
    var w := Bare(mgr);
    RunKeepsInv(ws, es, |es|);
    CanBlockIff(w, 0);
    var more, after :| Blocks(w, 0, more, after);
    Append(ws, es, w, more, after);
    ws, es := ws + more[1..], es + after;
    StuckCannotSend(ws[|es|], 0);
  }

  lemma Append(ws: seq<World>, es: seq<Event>, w: World, more: seq<World>, after: seq<Event>)
    requires RunTo(ws, es, w) && Continues(w, 0, more, after)
    ensures RunTo(ws + more[1..], es + after, more[|after|])
  {
    hide Step, RealClaim;
    var ws', es' := ws + more[1..], es + after;
    forall i | 0 <= i < |es'|
      ensures Step(ws'[i], es'[i], ws'[i + 1]) && RealClaim(ws'[i], es'[i], ws'[i + 1])
    {
      if i >= |es| {
        assert ws'[i] == more[i - |es|] && ws'[i + 1] == more[i - |es| + 1] && es'[i] == after[i - |es|];
      }
    }
  }

  lemma StuckCannotSend(w: World, m: nat)
    requires m in w.managers && Stuck(w.managers[m])
    ensures forall d, w' :: !Step(w, Inside(m, Dispatch(d, Send)), w')
  {
  }
}

/** The audit consumer on one partition: fetch, append with retries, commit; with failures, shutdowns and restarts. */
module Audit {

  /** A message of the log either decodes to an event or does not. */
  datatype Message = Event(id: string) | Garbage

  datatype Phase =
    | Fetching            // asking the reader for the next message
    | Appending           // holding the message at `position`, which decoded
    | Committing          // the message at `position` is dealt with
    | Stopped

  /** An event handed to the store, with the offset of its message. */
  datatype Append = Append(offset: nat, id: string)

  /** `position` is the offset of the next message to deal with, `session` where the reader started after the last
      restart, `appended` everything handed to the store so far, `mark` how much of it precedes this session. */
  datatype Consumer = Consumer(
    log: seq<Message>, committed: nat, session: nat, position: nat, phase: Phase, appended: seq<Append>, mark: nat)

  datatype Step =
    | Produce(message: Message)
    | FetchOk
    | FetchFails
    | AppendOk
    | AppendFails
    | CommitOk
    | CommitFails(landed: bool)
    | Shutdown
    | Restart

  /** The events of the log from offset `lo` up to `hi`, in order, each with its offset. */
  function Events(log: seq<Message>, lo: nat, hi: nat): (r: seq<Append>)
    requires lo <= hi <= |log|
    ensures forall o :: lo <= o < hi && log[o].Event? ==> Append(o, log[o].id) in r
    decreases hi
  {
    if lo == hi then []
    else
      var before := Events(log, lo, hi - 1);
      if log[hi - 1].Event? then before + [Append(hi - 1, log[hi - 1].id)] else before
  }

  /** The commit moves the stored offset to just behind the message. */
  function Commit(c: Consumer): Consumer {
    c.(committed := c.position + 1)
  }

  function Advance(c: Consumer): Consumer {
    c.(position := c.position + 1, phase := Fetching)
  }

  /** One step of the loop or of its surroundings; a step that is not possible changes nothing. */
  function Next(c: Consumer, s: Step): Consumer {
    match s
    case Produce(message) => c.(log := c.log + [message])
    case FetchOk =>
      if c.phase.Fetching? && c.position < |c.log|
      then c.(phase := if c.log[c.position].Event? then Appending else Committing) else c
    case FetchFails => c
    case AppendOk =>
      if c.phase.Appending? && c.position < |c.log| && c.log[c.position].Event?
      then c.(phase := Committing, appended := c.appended + [Append(c.position, c.log[c.position].id)]) else c
    case AppendFails => c
    case CommitOk => if c.phase.Committing? then Advance(Commit(c)) else c
    case CommitFails(landed) =>
      if c.phase.Committing? then Advance(if landed then Commit(c) else c) else c
    case Shutdown => c.(phase := Stopped)
    case Restart =>
      if c.phase.Stopped?
      then c.(phase := Fetching, session := c.committed, position := c.committed, mark := |c.appended|) else c
  }

  ghost function Run(steps: seq<Step>): Consumer {
    if steps == [] then Consumer([], 0, 0, 0, Fetching, [], 0)
    else Next(Run(steps[..|steps| - 1]), steps[|steps| - 1])
  }

  ghost predicate SessionAppended(c: Consumer, upTo: nat)
    requires c.session <= upTo <= |c.log| && c.mark <= |c.appended|
  {
    c.appended[c.mark..] == Events(c.log, c.session, upTo)
  }

  ghost predicate Inv(c: Consumer) {
    && c.session <= c.position <= |c.log| && c.mark <= |c.appended|
    && (c.phase.Appending? || c.phase.Committing? ==> c.position < |c.log|)
    && (c.phase.Appending? ==> c.log[c.position].Event?)
    && c.session <= c.committed <= c.position
    && (match c.phase
        case Committing => SessionAppended(c, c.position + 1)
        case Stopped => SessionAppended(c, c.position) || (c.position < |c.log| && SessionAppended(c, c.position + 1))
        case _ => SessionAppended(c, c.position))
    && (forall o :: 0 <= o < c.session && c.log[o].Event? ==> Append(o, c.log[o].id) in c.appended[..c.mark])
  }

  /** Messages produced later change no earlier event. */
  lemma {:induction false} EventsStay(log: seq<Message>, more: seq<Message>, lo: nat, hi: nat)
    requires lo <= hi <= |log| && log <= more
    ensures Events(more, lo, hi) == Events(log, lo, hi)
    decreases hi
  {
    if lo < hi {
      EventsStay(log, more, lo, hi - 1);
    }
  }

  /** Whatever lies below the committed offset and decodes is in the store. */
  lemma CommittedAppended(c: Consumer, o: nat)
    requires Inv(c) && o < c.committed && c.log[o].Event?
    ensures Append(o, c.log[o].id) in c.appended
  {
    hide Events;
    if o < c.session {
      assert Append(o, c.log[o].id) in c.appended[..c.mark];
    } else {
      assert Append(o, c.log[o].id) in c.appended[c.mark..];
    }
  }

  lemma ProduceKeepsInv(c: Consumer, message: Message)
    requires Inv(c)
    ensures Inv(c.(log := c.log + [message]))
  {
    hide Events;
    var more := c.log + [message];
    EventsStay(c.log, more, c.session, c.position);
    if c.position < |c.log| {
      EventsStay(c.log, more, c.session, c.position + 1);
    }
    assert forall o :: 0 <= o < |c.log| ==> more[o] == c.log[o];
  }

  lemma EventsExtend(log: seq<Message>, lo: nat, hi: nat)
    requires lo <= hi < |log|
    ensures Events(log, lo, hi + 1) ==
            if log[hi].Event? then Events(log, lo, hi) + [Append(hi, log[hi].id)] else Events(log, lo, hi)
  {
  }

  lemma FetchKeepsInv(c: Consumer)
    requires Inv(c)
    ensures Inv(Next(c, FetchOk))
  {
    hide Events;
    if c.phase.Fetching? && c.position < |c.log| {
      EventsExtend(c.log, c.session, c.position);
    }
  }

  lemma AppendKeepsInv(c: Consumer)
    requires Inv(c)
    ensures Inv(Next(c, AppendOk))
  {
    hide Events;
    if c.phase.Appending? {
      EventsExtend(c.log, c.session, c.position);
      TailGrows(c.appended, Append(c.position, c.log[c.position].id), c.mark);
    }
  }

  lemma TailGrows(s: seq<Append>, x: Append, n: nat)
    requires n <= |s|
    ensures (s + [x])[n..] == s[n..] + [x] && (s + [x])[..n] == s[..n]
  {
  }

  lemma RestartKeepsInv(c: Consumer)
    requires Inv(c)
    ensures Inv(Next(c, Restart))
  {
    hide Events;
    if c.phase.Stopped? {
      forall o | 0 <= o < c.committed && c.log[o].Event?
        ensures Append(o, c.log[o].id) in c.appended
      {
        CommittedAppended(c, o);
      }
      assert c.appended[..|c.appended|] == c.appended;
      NoEvents(c.log, c.committed);
    }
  }

  lemma NoEvents(log: seq<Message>, o: nat)
    requires o <= |log|
    ensures Events(log, o, o) == []
  {
  }

  lemma NextKeepsInv(c: Consumer, s: Step)
    requires Inv(c)
    ensures Inv(Next(c, s))
  {
    hide Events;
    match s
    case Produce(message) => ProduceKeepsInv(c, message);
    case FetchOk => FetchKeepsInv(c);
    case AppendOk => AppendKeepsInv(c);
    case Restart => RestartKeepsInv(c);
    case _ =>
  }

  lemma {:induction false} RunKeepsInv(steps: seq<Step>)
    ensures Inv(Run(steps))
  {
    hide Next;
    if steps != [] {
      RunKeepsInv(steps[..|steps| - 1]);
      NextKeepsInv(Run(steps[..|steps| - 1]), steps[|steps| - 1]);
    }
  }

  /** At least once: in every run, every decodable message below the committed offset has itself been appended. */
  lemma AtLeastOnce(steps: seq<Step>, o: nat)
    ensures var c := Run(steps);
            o < c.committed <= |c.log| && c.log[o].Event? ==> Append(o, c.log[o].id) in c.appended
    ensures Run(steps).committed <= |Run(steps).log|
  {
    hide Next, Events;
    RunKeepsInv(steps);
    var c := Run(steps);
    if o < c.committed && c.log[o].Event? {
      CommittedAppended(c, o);
    }
  }

  /** In order: since the last restart the appended events are exactly the log's, from the offset the reader restarted
      at up to the message being dealt with, without gaps or repetitions. */
  lemma AppendsFollowLog(steps: seq<Step>) returns (upTo: nat)
    ensures var c := Run(steps);
            && c.session <= c.position <= upTo <= |c.log| && upTo <= c.position + 1 && c.mark <= |c.appended|
            && c.appended[c.mark..] == Events(c.log, c.session, upTo)
  {
    hide Next, Events;
    RunKeepsInv(steps);
    var c := Run(steps);
    upTo := if SessionAppended(c, c.position) then c.position else c.position + 1;
  }

  /** Every append carries the event of the message at its offset. */
  ghost predicate FromLog(c: Consumer) {
    forall a :: a in c.appended ==> a.offset < |c.log| && c.log[a.offset] == Event(a.id)
  }

  lemma NextFromLog(c: Consumer, s: Step)
    requires FromLog(c)
    ensures FromLog(Next(c, s))
  {
  }

  /** Nothing is appended that is not in the log. */
  lemma {:induction false} AppendsAreFromLog(steps: seq<Step>)
    ensures FromLog(Run(steps))
  {
    hide Next;
    if steps != [] {
      AppendsAreFromLog(steps[..|steps| - 1]);
      NextFromLog(Run(steps[..|steps| - 1]), steps[|steps| - 1]);
    }
  }

  // ---------------------------------------------------------------------------------------------
  // When an event is appended twice

  /** A step that loses a commit: it fails without effect, or the consumer stops before it. */
  predicate LosesCommit(c: Consumer, s: Step) {
    c.phase.Committing? && (s.Shutdown? || s == CommitFails(false))
  }

  ghost predicate NoCommitLost(steps: seq<Step>) {
    forall i :: 0 <= i < |steps| ==> !LosesCommit(Run(steps[..i]), steps[i])
  }

  /** All that was dealt with is committed, and the store holds each of its events once. */
  ghost predicate OnceEach(c: Consumer) {
    && c.committed == c.position <= |c.log| && (c.phase.Committing? ==> c.position < |c.log|)
    && c.appended == Events(c.log, 0, if c.phase.Committing? then c.position + 1 else c.position)
  }

  lemma NextKeepsOnce(c: Consumer, s: Step)
    requires OnceEach(c) && !LosesCommit(c, s)
    ensures OnceEach(Next(c, s))
  {
    hide Events;
    if s.Produce? {
      EventsStay(c.log, c.log + [s.message], 0, if c.phase.Committing? then c.position + 1 else c.position);
    } else if c.position < |c.log| {
      EventsExtend(c.log, 0, c.position);
    }
  }

  /** Exactly once: while no commit is lost, whatever else fails and however often the consumer restarts, the store
      holds each event dealt with exactly once, in the order of the log, and nothing dealt with is uncommitted. */
  lemma {:induction false} ExactlyOnce(steps: seq<Step>)
    requires NoCommitLost(steps)
    ensures OnceEach(Run(steps))
  {
    hide Next;
    if steps != [] {
      var before := steps[..|steps| - 1];
      assert forall i :: 0 <= i < |before| ==> before[..i] == steps[..i];
      ExactlyOnce(before);
      NextKeepsOnce(Run(before), steps[|steps| - 1]);
    } else {
      NoEvents([], 0);
    }
  }

  lemma RunNext(steps: seq<Step>, s: Step)
    ensures Run(steps + [s]) == Next(Run(steps), s)
  {
    assert (steps + [s])[..|steps|] == steps;
  }

  /** The consumer stops after the loss, starts again and deals with one event. */
  ghost function Resumed(steps: seq<Step>, loss: Step): seq<Step> {
    steps + [loss] + [Shutdown] + [Restart] + [FetchOk] + [AppendOk]
  }

  lemma ResumedRun(steps: seq<Step>, loss: Step)
    ensures Run(Resumed(steps, loss)) ==
            Next(Next(Next(Next(Next(Run(steps), loss), Shutdown), Restart), FetchOk), AppendOk)
  {
    hide Next, Run;
    RunNext(steps, loss);
    RunNext(steps + [loss], Shutdown);
    RunNext(steps + [loss] + [Shutdown], Restart);
    RunNext(steps + [loss] + [Shutdown] + [Restart], FetchOk);
    RunNext(steps + [loss] + [Shutdown] + [Restart] + [FetchOk], AppendOk);
  }

  /** The first loss of an event's commit opens the way to a second append of that event. */
  lemma LossRepeats(steps: seq<Step>, loss: Step)
    requires NoCommitLost(steps) && LosesCommit(Run(steps), loss)
    requires Run(steps).position < |Run(steps).log| && Run(steps).log[Run(steps).position].Event?
    ensures var c := Run(steps);
            var a := Append(c.position, c.log[c.position].id);
            Run(Resumed(steps, loss)).appended == Events(c.log, 0, c.position) + [a] + [a]
  {
    hide Events, Resumed, Run, NoCommitLost;
    ExactlyOnce(steps);
    var c := Run(steps);
    EventsExtend(c.log, 0, c.position);
    ResumedRun(steps, loss);
  }
}

/** The quota fallback cache: the last decision of the quota service, spent locally while the service cannot be
    reached. */
module Quota {
  import opened Text
  import opened Wrappers
  import opened Machine

  datatype Response = Response(
    allowed: bool, reason: string, limit: Option<Int64>, used: Int64, remaining: Option<Int64>,
    resetAt: Option<string>, statusCode: int)

  datatype Entry = Entry(result: Response, expiresAt: int)

  /** A copy, with the reset time trimmed. */
  function Clone(r: Response): (c: Response)
    ensures c.allowed == r.allowed && c.remaining == r.remaining && c.used == r.used
    ensures c.reason == r.reason && c.limit == r.limit && c.statusCode == r.statusCode
  {
    r.(resetAt := if r.resetAt.Some? then Some(Trim(r.resetAt.value)) else None)
  }

  predicate Usable(ttl: int, key: string) {
    ttl > 0 && Trim(key) != ""
  }

  /** The earlier of the time to live and the response's reset time, if it has one; `reset` is what that text parses
      to. */
  function Expiry(ttl: int, result: Response, now: int, reset: Option<int>): int {
    if result.resetAt.Some? && reset.Some? && reset.value < now + ttl then reset.value else now + ttl
  }

  function AfterStore(
    entries: map<string, Entry>, ttl: int, key: string, result: Response, now: int, reset: Option<int>)
    : map<string, Entry>
  {
    if Usable(ttl, key) then entries[key := Entry(Clone(result), Expiry(ttl, result, now, reset))] else entries
  }

  /** What spending `delta` makes of a cached decision. */
  function Spend(r: Response, delta: Int64): Response {
    if !r.allowed || r.remaining.None? then r
    else if r.remaining.value < delta then
      r.(allowed := false, reason := "quota_exceeded", statusCode := 429, remaining := Some(0))
    else
      r.(used := Wrap(r.used + delta), remaining := Some(Wrap(r.remaining.value - delta)))
  }

  function AfterFallback(entries: map<string, Entry>, ttl: int, key: string, delta: Int64, now: int)
    : (map<string, Entry>, Option<Response>)
  {
    if !Usable(ttl, key) || key !in entries then (entries, None)
    else if now > entries[key].expiresAt then (entries - {key}, None)
    else
      var result := Spend(Clone(entries[key].result), delta);
      var kept := entries[key].(result := Clone(result));
      (if Clone(entries[key].result).allowed then entries[key := kept] else entries, Some(result))
  }

  class DecisionCache {
    const ttl: int
    var entries: map<string, Entry>

    constructor (ttl: int)
      ensures this.ttl == ttl && entries == map[]
    {
      this.ttl := ttl;
      entries := map[];
    }

    method Store(key: string, result: Response, now: int, reset: Option<int>)
      modifies this
      ensures entries == AfterStore(old(entries), ttl, key, result, now, reset)
      ensures ttl <= 0 || Trim(key) == "" ==> entries == old(entries)
    {
      hide Trim, Clone;
      if ttl <= 0 || Trim(key) == "" {
        return;
      }
      var expiresAt := now + ttl;
      if result.resetAt.Some? {
        if reset.Some? && reset.value < expiresAt {
          expiresAt := reset.value;
        }
      }
      entries := entries[key := Entry(Clone(result), expiresAt)];
    }

    method Fallback(key: string, delta: Int64, now: int) returns (reply: Option<Response>)
      modifies this
      ensures (entries, reply) == AfterFallback(old(entries), ttl, key, delta, now)
      ensures ttl <= 0 || Trim(key) == "" || key !in old(entries) ==> reply == None && entries == old(entries)
    {
      hide Trim, Clone, Wrap;
      if ttl <= 0 || Trim(key) == "" {
        return None;
      }
      if key !in entries {
        return None;
      }
      var entry := entries[key];
      if now > entry.expiresAt {
        entries := entries - {key};
        return None;
      }
      var result := Clone(entry.result);
      if !result.allowed {
        return Some(result);
      }
      if result.remaining.None? {
        entries := entries[key := entry.(result := Clone(result))];
        return Some(result);
      }
      var remaining := result.remaining.value;
      if remaining < delta {
        remaining := 0;
        result := result.(allowed := false, reason := "quota_exceeded", statusCode := 429,
            remaining := Some(remaining));
        entries := entries[key := entry.(result := Clone(result))];
        return Some(result);
      }
      remaining := Wrap(remaining - delta);
      result := result.(used := Wrap(result.used + delta), remaining := Some(remaining));
      entries := entries[key := entry.(result := Clone(result))];
      return Some(result);
    }
  }

  // ---------------------------------------------------------------------------------------------
  // Runs

  datatype Call =
    | StoreCall(key: string, result: Response, now: int, reset: Option<int>)
    | FallbackCall(key: string, delta: Int64, now: int)

  function After(entries: map<string, Entry>, ttl: int, call: Call): map<string, Entry> {
    match call
    case StoreCall(key, result, now, reset) => AfterStore(entries, ttl, key, result, now, reset)
    case FallbackCall(key, delta, now) => AfterFallback(entries, ttl, key, delta, now).0
  }

  function ReplyTo(entries: map<string, Entry>, ttl: int, call: Call): Option<Response> {
    if call.FallbackCall? then AfterFallback(entries, ttl, call.key, call.delta, call.now).1 else None
  }

  function RunCalls(entries: map<string, Entry>, ttl: int, calls: seq<Call>): map<string, Entry> {
    if calls == [] then entries
    else After(RunCalls(entries, ttl, calls[..|calls| - 1]), ttl, calls[|calls| - 1])
  }

  /** The reply to the last of the calls. */
  function LastReply(entries: map<string, Entry>, ttl: int, calls: seq<Call>): Option<Response>
    requires calls != []
  {
    ReplyTo(RunCalls(entries, ttl, calls[..|calls| - 1]), ttl, calls[|calls| - 1])
  }

  /** The total that fallbacks on `key` were allowed to spend. */
  function Admitted(entries: map<string, Entry>, ttl: int, key: string, calls: seq<Call>): int {
    if calls == [] then 0
    else
      var last := calls[|calls| - 1];
      Admitted(entries, ttl, key, calls[..|calls| - 1]) +
      if last.FallbackCall? && last.key == key && LastReply(entries, ttl, calls).Some?
          && LastReply(entries, ttl, calls).value.allowed
      then last.delta else 0
  }

  /** Calls that leave the stored decision for `key` alone and only ever spend. */
  ghost predicate Spending(key: string, calls: seq<Call>) {
    forall i :: 0 <= i < |calls| && calls[i].key == key ==> calls[i].FallbackCall? && calls[i].delta > 0
  }

  /** What is known of the entry for `key` when `left` may still be spent and it dies at `expiresAt`. */
  ghost predicate Bounded(entries: map<string, Entry>, key: string, left: int, expiresAt: int) {
    && left >= 0
    && (key in entries ==> entries[key].expiresAt == expiresAt)
    && (key in entries && entries[key].result.allowed ==> entries[key].result.remaining == Some(left))
  }

  lemma StepBounded(entries: map<string, Entry>, ttl: int, key: string, left: int, expiresAt: int, call: Call)
    requires Bounded(entries, key, left, expiresAt)
    requires call.key == key ==> call.FallbackCall? && call.delta > 0
    ensures var reply := ReplyTo(entries, ttl, call);
            var spent := if call.key == key && reply.Some? && reply.value.allowed then call.delta else 0;
            Bounded(After(entries, ttl, call), key, left - spent, expiresAt)
  {
    hide Trim;
    if call.key != key {
      OthersUntouched(entries, ttl, key, call);
    } else {
      assert Usable(ttl, key) || After(entries, ttl, call) == entries;
    }
  }

  lemma OthersUntouched(entries: map<string, Entry>, ttl: int, key: string, call: Call)
    requires call.key != key
    ensures var next := After(entries, ttl, call);
            && (key in next <==> key in entries)
            && (key in entries ==> next[key] == entries[key])
  {
    hide Trim, Spend;
  }

  lemma {:induction false} SpendsWithin(entries: map<string, Entry>, ttl: int, key: string, left: int,
      expiresAt: int, calls: seq<Call>)
    requires Bounded(entries, key, left, expiresAt) && Spending(key, calls)
    ensures Admitted(entries, ttl, key, calls) <= left
    ensures Bounded(RunCalls(entries, ttl, calls), key, left - Admitted(entries, ttl, key, calls), expiresAt)
    decreases |calls|
  {
    hide After, ReplyTo;
    if calls != [] {
      var before := calls[..|calls| - 1];
      SpendsWithin(entries, ttl, key, left, expiresAt, before);
      StepBounded(RunCalls(entries, ttl, before), ttl, key, left - Admitted(entries, ttl, key, before), expiresAt,
          calls[|calls| - 1]);
    }
  }

  lemma StoredBounded(entries: map<string, Entry>, ttl: int, key: string, result: Response, now: int,
      reset: Option<int>)
    requires Usable(ttl, key) && result.allowed && result.remaining.Some? && result.remaining.value >= 0
    ensures Bounded(AfterStore(entries, ttl, key, result, now, reset), key, result.remaining.value,
              Expiry(ttl, result, now, reset))
  {
    hide Trim, Expiry;
  }

  /** Never over-admits: from an allowed decision with `r` remaining, fallbacks with positive deltas are admitted for
      a total of at most `r`, whatever happens to other keys in between. */
  lemma NeverOverAdmits(entries: map<string, Entry>, ttl: int, key: string, result: Response, now: int,
      reset: Option<int>, calls: seq<Call>)
    requires Usable(ttl, key) && result.allowed && result.remaining.Some? && result.remaining.value >= 0
    requires Spending(key, calls)
    ensures var stored := AfterStore(entries, ttl, key, result, now, reset);
            && Admitted(stored, ttl, key, calls) <= result.remaining.value
            && Bounded(RunCalls(stored, ttl, calls), key, result.remaining.value - Admitted(stored, ttl, key, calls),
                       Expiry(ttl, result, now, reset))
  {
    hide AfterStore, Expiry, Admitted, RunCalls, Bounded, Spending;
    StoredBounded(entries, ttl, key, result, now, reset);
    SpendsWithin(AfterStore(entries, ttl, key, result, now, reset), ttl, key, result.remaining.value,
        Expiry(ttl, result, now, reset), calls);
  }

  /** An entry for the key, if there is one, dies at the given time. */
  ghost predicate Dies(entries: map<string, Entry>, key: string, expiresAt: int) {
    key in entries ==> entries[key].expiresAt == expiresAt
  }

  lemma StepDies(entries: map<string, Entry>, ttl: int, key: string, expiresAt: int, call: Call)
    requires Dies(entries, key, expiresAt) && (call.key == key ==> call.FallbackCall?)
    ensures Dies(After(entries, ttl, call), key, expiresAt)
  {
    hide Trim, Spend;
    if call.key != key {
      OthersUntouched(entries, ttl, key, call);
    }
  }

  lemma {:induction false} RunDies(entries: map<string, Entry>, ttl: int, key: string, expiresAt: int, calls: seq<Call>)
    requires Dies(entries, key, expiresAt)
    requires forall i :: 0 <= i < |calls| ==> calls[i].key == key ==> calls[i].FallbackCall?
    ensures Dies(RunCalls(entries, ttl, calls), key, expiresAt)
    decreases |calls|
  {
    hide After;
    if calls != [] {
      RunDies(entries, ttl, key, expiresAt, calls[..|calls| - 1]);
      StepDies(RunCalls(entries, ttl, calls[..|calls| - 1]), ttl, key, expiresAt, calls[|calls| - 1]);
    }
  }

  /** Past the time to live of a decision stored at `now`, or past its reset time if it has one that parses. */
  ghost predicate Late(t: int, ttl: int, result: Response, now: int, reset: Option<int>) {
    t > now + ttl || (result.resetAt.Some? && reset.Some? && t > reset.value)
  }

  lemma LateIff(t: int, ttl: int, result: Response, now: int, reset: Option<int>)
    ensures t > Expiry(ttl, result, now, reset) <==> Late(t, ttl, result, now, reset)
  {
  }

  /** Nothing is answered past the time to live or the reset time of a stored decision, whatever the decision was and
      whatever fallbacks came before. */
  lemma NothingAfterExpiry(
    entries: map<string, Entry>, ttl: int, key: string, result: Response, now: int, reset: Option<int>,
        calls: seq<Call>)
    requires Usable(ttl, key) && calls != []
    requires forall i :: 0 <= i < |calls| ==> calls[i].key == key ==> calls[i].FallbackCall?
    requires calls[|calls| - 1].key == key && Late(calls[|calls| - 1].now, ttl, result, now, reset)
    ensures LastReply(AfterStore(entries, ttl, key, result, now, reset), ttl, calls) == None
  {
    hide Trim, Spend, RunCalls, Expiry, Late;
    LateIff(calls[|calls| - 1].now, ttl, result, now, reset);
    var stored, before := AfterStore(entries, ttl, key, result, now, reset), calls[..|calls| - 1];
    RunDies(stored, ttl, key, Expiry(ttl, result, now, reset), before);
  }

  /** The entry for the key is there and dies at the given time. */
  ghost predicate Lives(entries: map<string, Entry>, key: string, expiresAt: int) {
    key in entries && entries[key].expiresAt == expiresAt
  }

  lemma StepLives(entries: map<string, Entry>, ttl: int, key: string, expiresAt: int, call: Call)
    requires Lives(entries, key, expiresAt) && (call.key == key ==> call.FallbackCall? && call.now <= expiresAt)
    ensures Lives(After(entries, ttl, call), key, expiresAt)
  {
    hide Trim, Spend;
    if call.key != key {
      OthersUntouched(entries, ttl, key, call);
    }
  }

  lemma {:induction false} RunLives(entries: map<string, Entry>, ttl: int, key: string, expiresAt: int,
      calls: seq<Call>)
    requires Lives(entries, key, expiresAt)
    requires forall i :: 0 <= i < |calls| ==> calls[i].key == key ==>
              calls[i].FallbackCall? && calls[i].now <= expiresAt
    ensures Lives(RunCalls(entries, ttl, calls), key, expiresAt)
    decreases |calls|
  {
    hide After;
    if calls != [] {
      RunLives(entries, ttl, key, expiresAt, calls[..|calls| - 1]);
      StepLives(RunCalls(entries, ttl, calls[..|calls| - 1]), ttl, key, expiresAt, calls[|calls| - 1]);
    }
  }

  /** Up to and including that time every fallback on the key is answered. */
  lemma AnsweredUntilExpiry(
    entries: map<string, Entry>, ttl: int, key: string, result: Response, now: int, reset: Option<int>,
        calls: seq<Call>)
    requires Usable(ttl, key) && calls != [] && calls[|calls| - 1].key == key
    requires forall i :: 0 <= i < |calls| ==> calls[i].key == key ==>
               calls[i].FallbackCall? && !Late(calls[i].now, ttl, result, now, reset)
    ensures LastReply(AfterStore(entries, ttl, key, result, now, reset), ttl, calls).Some?
  {
    hide Trim, Spend, RunCalls, Expiry, Late;
    var stored, before := AfterStore(entries, ttl, key, result, now, reset), calls[..|calls| - 1];
    forall i | 0 <= i < |calls| && calls[i].key == key
      ensures calls[i].now <= Expiry(ttl, result, now, reset)
    {
      LateIff(calls[i].now, ttl, result, now, reset);
    }
    RunLives(stored, ttl, key, Expiry(ttl, result, now, reset), before);
  }

  /** The first fallback is answered with the stored decision: refused as it was, without a count as it was, and with a
      count admitted exactly if the delta is not above what remains; a refusal for that reason says so. */
  lemma FirstReply(
    entries: map<string, Entry>, ttl: int, key: string, result: Response, now: int, reset: Option<int>, delta: Int64,
        t: int)
    requires Usable(ttl, key) && !Late(t, ttl, result, now, reset)
    ensures var reply := AfterFallback(AfterStore(entries, ttl, key, result, now, reset), ttl, key, delta, t).1;
            && reply.Some?
            && (reply.value.allowed <==>
                  result.allowed && (result.remaining.Some? ==> delta <= result.remaining.value))
            && (result.allowed && !reply.value.allowed ==>
                  && reply.value.reason == "quota_exceeded" && reply.value.statusCode == 429
                  && reply.value.remaining == Some(0) && reply.value.used == result.used)
            && ((!result.allowed || result.remaining.None?) ==>
                  && reply.value.reason == result.reason && reply.value.statusCode == result.statusCode
                  && reply.value.remaining == result.remaining && reply.value.used == result.used)
            && reply.value.limit == result.limit && (reply.value.resetAt.Some? <==> result.resetAt.Some?)
            && (result.resetAt.Some? ==> reply.value.resetAt.value == Trim(result.resetAt.value))
  {
    hide Trim, Late, Expiry;
    LateIff(t, ttl, result, now, reset);
  }

  /** What is gone or refused stays so until the next store. */
  ghost predicate Closed(entries: map<string, Entry>, key: string) {
    key in entries ==> !entries[key].result.allowed
  }

  lemma RefusalCloses(entries: map<string, Entry>, ttl: int, key: string, delta: Int64, now: int)
    requires AfterFallback(entries, ttl, key, delta, now).1.Some?
              && !AfterFallback(entries, ttl, key, delta, now).1.value.allowed
    ensures Closed(AfterFallback(entries, ttl, key, delta, now).0, key)
  {
  }

  lemma StaysClosed(entries: map<string, Entry>, ttl: int, key: string, call: Call)
    requires Closed(entries, key) && (call.key == key ==> call.FallbackCall?)
    ensures Closed(After(entries, ttl, call), key)
    ensures call.key == key && ReplyTo(entries, ttl, call).Some? ==> !ReplyTo(entries, ttl, call).value.allowed
  {
    hide Trim;
    if call.key != key {
      OthersUntouched(entries, ttl, key, call);
    }
  }

  /** After a refusal every later fallback on the key is refused or unanswered, until the key is stored again. */
  lemma {:induction false} KeepsRefusing(entries: map<string, Entry>, ttl: int, key: string, calls: seq<Call>)
    requires Closed(entries, key)
    requires forall i :: 0 <= i < |calls| ==> calls[i].key == key ==> calls[i].FallbackCall?
    ensures Closed(RunCalls(entries, ttl, calls), key)
    ensures calls != [] && calls[|calls| - 1].key == key && LastReply(entries, ttl, calls).Some? ==>
              !LastReply(entries, ttl, calls).value.allowed
    decreases |calls|
  {
    hide After, ReplyTo;
    if calls != [] {
      KeepsRefusing(entries, ttl, key, calls[..|calls| - 1]);
      StaysClosed(RunCalls(entries, ttl, calls[..|calls| - 1]), ttl, key, calls[|calls| - 1]);
    }
  }

  /** An admitted step moves its delta from the remaining to the used count; their sum stays exactly as long as the
      used count does not leave the machine range. */
  lemma SumKeptIff(r: Response, delta: Int64)
    requires r.allowed && r.remaining.Some? && 0 < delta <= r.remaining.value
    ensures Spend(r, delta).allowed && Spend(r, delta).remaining == Some(r.remaining.value - delta)
    ensures Spend(r, delta).used + Spend(r, delta).remaining.value == r.used + r.remaining.value <==>
              r.used + delta < TWO63
  {
  }
}

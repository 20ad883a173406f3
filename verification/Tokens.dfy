/** Service tokens: the cache that goroutines share, and the client that retries requests with tokens from it.

    Every locked section of the cache leaves one entry in a log. A log of the cache holds, in lock order, what all
    goroutines did, so a statement about every legal log is a statement about every interleaving.
 */
module Tokens {
  import opened Wrappers

  /** What one locked section did: a read that found a usable token or none, a refresh that found one, fetched one or
      failed to, or an invalidation. */
  datatype Entry =
    | Hit(now: int, token: string)
    | Missed(now: int)
    | Fetched(now: int, token: string, expiresAt: int)
    | FetchFailed(now: int)
    | Invalidated

  datatype Held = Held(token: string, expiresAt: int)

  /** A token the provider grants. */
  datatype Grant = Grant(token: string, expiresAt: int)

  /** What the log leaves in the cache. */
  function HeldAfter(log: seq<Entry>): Held {
    if |log| == 0 then Held("", 0)
    else match log[|log| - 1]
      case Fetched(_, token, expiresAt) => Held(token, expiresAt)
      case Invalidated => Held("", 0)
      case _ => HeldAfter(log[..|log| - 1])
  }

  predicate Usable(held: Held, buffer: int, now: int) {
    held.token != "" && now < held.expiresAt - buffer
  }

  /** An entry the cache could have left when it held `held`. */
  predicate Legal(held: Held, buffer: int, entry: Entry) {
    match entry
    case Hit(now, token) => Usable(held, buffer, now) && token == held.token
    case Missed(now) => !Usable(held, buffer, now)
    case Fetched(now, _, _) => !Usable(held, buffer, now)
    case FetchFailed(now) => !Usable(held, buffer, now)
    case Invalidated => true
  }

  ghost predicate LegalLog(log: seq<Entry>, buffer: int) {
    forall i :: 0 <= i < |log| ==> Legal(HeldAfter(log[..i]), buffer, log[i])
  }

  lemma LegalMore(log: seq<Entry>, buffer: int, entry: Entry)
    requires LegalLog(log, buffer) && Legal(HeldAfter(log), buffer, entry)
    ensures LegalLog(log + [entry], buffer)
  {
    var more := log + [entry];
    forall i | 0 <= i < |more|
      ensures Legal(HeldAfter(more[..i]), buffer, more[i])
    {
      assert more[..i] == log[..i];
      assert log[..|log|] == log;
    }
  }

  predicate Writes(entry: Entry) {
    entry.Fetched? || entry.Invalidated?
  }

  /** What was last written is what is held. */
  lemma {:induction false} HeldSince(log: seq<Entry>, i: nat)
    requires i < |log| && log[i].Fetched?
    requires forall k :: i < k < |log| ==> !Writes(log[k])
    ensures HeldAfter(log) == Held(log[i].token, log[i].expiresAt)
    decreases |log|
  {
    if i < |log| - 1 {
      HeldSince(log[..|log| - 1], i);
    }
  }

  /** What is held and is not empty was fetched, with nothing written since. */
  lemma {:induction false} HeldWasFetched(log: seq<Entry>) returns (i: nat)
    requires HeldAfter(log).token != ""
    ensures i < |log| && log[i].Fetched? && HeldAfter(log) == Held(log[i].token, log[i].expiresAt)
    ensures forall k :: i < k < |log| ==> !Writes(log[k])
    decreases |log|
  {
    i := |log| - 1;
    if !Writes(log[|log| - 1]) {
      i := HeldWasFetched(log[..|log| - 1]);
    }
  }

  /** Fetches are spaced: between two successful fetches, the first of a nonempty token, the next write to the cache
      is an invalidation or a fetch inside the refresh window of the earlier token. */
  lemma FetchesAreSpaced(log: seq<Entry>, buffer: int, i: nat, j: nat) returns (k: nat)
    requires LegalLog(log, buffer)
    requires i < j < |log| && log[i].Fetched? && log[j].Fetched? && log[i].token != ""
    ensures i < k <= j && forall m :: i < m < k ==> !Writes(log[m])
    ensures log[k].Invalidated? || (log[k].Fetched? && log[k].now >= log[i].expiresAt - buffer)
  {
    k := NextWrite(log, i, j);
    HeldSince(log[..k], i);
    assert Legal(HeldAfter(log[..k]), buffer, log[k]);
  }

  lemma NextWrite(log: seq<Entry>, i: nat, j: nat) returns (k: nat)
    requires i < j < |log| && Writes(log[j])
    ensures i < k <= j && Writes(log[k]) && forall m :: i < m < k ==> !Writes(log[m])
  {
    k := i + 1;
    while !Writes(log[k])
      invariant i < k <= j
      invariant forall m :: i < m < k ==> !Writes(log[m])
      decreases j - k
    {
      k := k + 1;
    }
  }

  /** A token served from the cache was fetched before, is outside its refresh window, and nothing was written since. */
  lemma HitsAreFresh(log: seq<Entry>, buffer: int, j: nat) returns (i: nat)
    requires LegalLog(log, buffer) && j < |log| && log[j].Hit?
    ensures i < j && log[i].Fetched? && log[i].token == log[j].token && log[j].now < log[i].expiresAt - buffer
    ensures forall k :: i < k < j ==> !Writes(log[k])
  {
    assert Legal(HeldAfter(log[..j]), buffer, log[j]);
    i := HeldWasFetched(log[..j]);
  }

  // ---------------------------------------------------------------------------------------------
  // The cache

  /** Some entry from `start` on and before `end` fetched the token, and it was not invalidated before `end`. */
  ghost predicate FetchedIn(log: seq<Entry>, token: string, start: int, end: int) {
    exists i :: 0 <= start <= i < end <= |log| && log[i].Fetched? && log[i].token == token
        && NoInvalidation(log, i, end)
  }

  ghost predicate NoInvalidation(log: seq<Entry>, i: int, end: int)
    requires 0 <= i && end <= |log|
  {
    forall k :: i < k < end ==> !log[k].Invalidated?
  }

  /** A step of some other goroutine. */
  datatype Move = Peeking(now: int) | Refreshing(now: int, fetch: Option<Grant>) | Clearing

  class TokenCache {
    const buffer: int
    var token: string
    var expiresAt: int
    ghost var log: seq<Entry>

    ghost predicate Valid()
      reads this
    {
      LegalLog(log, buffer) && HeldAfter(log) == Held(token, expiresAt)
    }

    constructor (refreshBuffer: int)
      ensures Valid() && log == []
      ensures buffer == if refreshBuffer <= 0 then 30_000 else refreshBuffer
    {
      buffer := if refreshBuffer <= 0 then 30_000 else refreshBuffer;
      token, expiresAt := "", 0;
      log := [];
    }

    /** The check under the read lock. */
    method Peek(now: int) returns (hit: Option<string>)
      requires Valid()
      modifies this
      ensures Valid() && token == old(token) && expiresAt == old(expiresAt)
      ensures hit.Some? <==> Usable(Held(token, expiresAt), buffer, now)
      ensures log == old(log) + [if hit.Some? then Hit(now, hit.value) else Missed(now)]
    {
      hit := if token != "" && now < expiresAt - buffer then Some(token) else None;
      ghost var entry := if hit.Some? then Hit(now, hit.value) else Missed(now);
      LegalMore(log, buffer, entry);
      log := log + [entry];
    }

    /** The refresh under the write lock: it checks again and then calls the provider, whose answer is `fetch`. */
    method Refresh(now: int, fetch: Option<Grant>) returns (got: Option<string>)
      requires Valid()
      modifies this
      ensures Valid() && |log| == |old(log)| + 1 && old(log) == log[..|old(log)|]
      ensures var last := log[|old(log)|];
              if old(Usable(Held(token, expiresAt), buffer, now)) then
                got == Some(old(token)) && last == Hit(now, old(token))
              else if fetch.Some? then
                got == Some(fetch.value.token) && last == Fetched(now, fetch.value.token, fetch.value.expiresAt)
              else
                got == None && last == FetchFailed(now)
    {
      ghost var entry;
      if token != "" && now < expiresAt - buffer {
        got := Some(token);
        entry := Hit(now, token);
      } else if fetch.None? {
        got := None;
        entry := FetchFailed(now);
      } else {
        token, expiresAt := fetch.value.token, fetch.value.expiresAt;
        got := Some(token);
        entry := Fetched(now, token, expiresAt);
      }
      LegalMore(log, buffer, entry);
      log := log + [entry];
    }

    method Invalidate()
      requires Valid()
      modifies this
      ensures Valid() && token == "" && log == old(log) + [Invalidated]
    {
      token, expiresAt := "", 0;
      LegalMore(log, buffer, Invalidated);
      log := log + [Invalidated];
    }

    /** Whatever other goroutines do before the next step. */
    method Others(moves: seq<Move>)
      requires Valid()
      modifies this
      ensures Valid() && old(log) <= log
    {
      for i := 0 to |moves|
        invariant Valid() && old(log) <= log
      {
        match moves[i]
        case Peeking(now) => var _ := Peek(now);
        case Refreshing(now, fetch) => var _ := Refresh(now, fetch);
        case Clearing => Invalidate();
      }
    }

    /** A whole call, with other goroutines at work between its two locked sections: the token returned was fetched,
        and not invalidated between its fetch and the end of the call's last section. */
    method GetToken(now: int, between: seq<Move>, later: int, fetch: Option<Grant>) returns (got: Option<string>)
      requires Valid()
      modifies this
      ensures Valid() && old(log) <= log
      ensures got.Some? ==> FetchedIn(log, got.value, 0, |log|)
    {
      got := Peek(now);
      if got.Some? {
        ServedWasFetched(log, buffer);
        return;
      }
      Others(between);
      got := Refresh(later, fetch);
      if got.Some? {
        ServedWasFetched(log, buffer);
      }
    }
  }

  lemma ServedWasFetched(log: seq<Entry>, buffer: int)
    requires LegalLog(log, buffer) && log != [] && (log[|log| - 1].Hit? || log[|log| - 1].Fetched?)
    ensures FetchedIn(log, log[|log| - 1].token, 0, |log|)
  {
    var j := |log| - 1;
    if log[j].Hit? {
      var i := HitsAreFresh(log, buffer, j);
      assert NoInvalidation(log, i, |log|);
    } else {
      assert NoInvalidation(log, j, |log|);
    }
  }

  lemma FetchedInMore(log: seq<Entry>, more: seq<Entry>, token: string, start: int, end: int)
    requires log <= more && FetchedIn(log, token, start, end)
    ensures FetchedIn(more, token, start, end)
  {
    var i :| 0 <= start <= i < end <= |log| && log[i].Fetched? && log[i].token == token && NoInvalidation(log, i, end);
    assert NoInvalidation(more, i, end);
  }

  /** A token in use after an invalidation was fetched after it. */
  lemma FetchedAfter(log: seq<Entry>, token: string, m: nat, end: int)
    requires FetchedIn(log, token, 0, end) && m < end && log[m].Invalidated?
    ensures FetchedIn(log, token, m + 1, end)
  {
    var i :| 0 <= i < end <= |log| && log[i].Fetched? && log[i].token == token && NoInvalidation(log, i, end);
    assert i > m;
  }

  // ---------------------------------------------------------------------------------------------
  // The client

  datatype Error = BreakerOpen | Unreachable(text: string) | ServerError(status: int) | NoToken

  datatype Outcome = Status(code: int) | Failed(error: Error)

  datatype Result =
    | Response(status: int)
    | Canceled
    | HookFailed
    | FailedAfter(limit: int, last: Option<Error>)

  /** What the world does during one attempt: the wait may be cancelled, other goroutines use the cache at any moment,
      the provider may grant a token, the breaker may refuse, the transport gives an outcome, and a response hook may
      fail. */
  datatype Turn = Turn(
    canceled: bool, before: seq<Move>, now: int, between: seq<Move>, later: int, fetch: Option<Grant>,
    refused: bool, outcome: Outcome, during: seq<Move>, hookFails: bool, after: seq<Move>)

  /** One attempt: the token it was given, how it ended, and the length of the log when the token was got and when the
      outcome was known. */
  datatype Attempt = Attempt(bearer: Option<string>, outcome: Outcome, got: nat, ended: nat)

  /** What the breaker makes of the transport's outcome. */
  function Guarded(breaker: bool, turn: Turn): Outcome {
    if breaker && turn.refused then Failed(BreakerOpen)
    else if breaker && turn.outcome.Status? && turn.outcome.code >= 500 then Failed(ServerError(turn.outcome.code))
    else turn.outcome
  }

  ghost predicate Unauthorized(a: Attempt) {
    a.outcome == Status(401)
  }

  /** Each attempt's token was got before its outcome, and every retry carries a token fetched after each earlier 401.
      */
  ghost predicate Renewed(log: seq<Entry>, attempts: seq<Attempt>) {
    && (forall i :: 0 <= i < |attempts| ==> attempts[i].got <= attempts[i].ended <= |log|)
    && (forall i, j :: 0 <= i < j < |attempts| && Unauthorized(attempts[i]) && attempts[j].bearer.Some? ==>
          FetchedIn(log, attempts[j].bearer.value, attempts[i].ended, attempts[j].got))
  }

  /** The cache was invalidated after each 401 so far. */
  ghost predicate Cleared(log: seq<Entry>, attempts: seq<Attempt>) {
    forall i :: 0 <= i < |attempts| && Unauthorized(attempts[i]) ==>
      exists m :: attempts[i].ended <= m < |log| && log[m].Invalidated?
  }

  lemma RenewedMore(log: seq<Entry>, more: seq<Entry>, attempts: seq<Attempt>)
    requires log <= more && Renewed(log, attempts) && Cleared(log, attempts)
    ensures Renewed(more, attempts) && Cleared(more, attempts)
  {
    forall i, j | 0 <= i < j < |attempts| && Unauthorized(attempts[i]) && attempts[j].bearer.Some?
      ensures FetchedIn(more, attempts[j].bearer.value, attempts[i].ended, attempts[j].got)
    {
      FetchedInMore(log, more, attempts[j].bearer.value, attempts[i].ended, attempts[j].got);
    }
    forall i | 0 <= i < |attempts| && Unauthorized(attempts[i])
      ensures exists m :: attempts[i].ended <= m < |more| && more[m].Invalidated?
    {
      var m :| attempts[i].ended <= m < |log| && log[m].Invalidated?;
      assert more[m] == log[m];
    }
  }

  lemma RenewedNext(log: seq<Entry>, more: seq<Entry>, attempts: seq<Attempt>, a: Attempt)
    requires Renewed(log, attempts) && Cleared(log, attempts)
    requires log <= more && a.got == |log| <= a.ended <= |more|
    requires a.bearer.Some? && attempts != [] ==> FetchedIn(log, a.bearer.value, 0, |log|)
    ensures Renewed(more, attempts + [a])
    ensures !Unauthorized(a) ==> Cleared(more, attempts + [a])
  {
    var next := attempts + [a];
    RenewedMore(log, more, attempts);
    assert !Unauthorized(a) ==> Cleared(more, next);
    forall i, j | 0 <= i < j < |next| && Unauthorized(next[i]) && next[j].bearer.Some?
      ensures FetchedIn(more, next[j].bearer.value, next[i].ended, next[j].got)
    {
      var token := next[j].bearer.value;
      if j < |attempts| {
        FetchedInMore(log, more, token, next[i].ended, next[j].got);
      } else {
        var m :| attempts[i].ended <= m < |log| && log[m].Invalidated?;
        FetchedAfter(log, token, m, |log|);
        var k :| m + 1 <= k < |log| && log[k].Fetched? && log[k].token == token && NoInvalidation(log, k, |log|);
        assert FetchedIn(log, token, next[i].ended, |log|);
        FetchedInMore(log, more, token, next[i].ended, |log|);
      }
    }
  }

  lemma NothingToRenew(log: seq<Entry>)
    ensures Renewed(log, []) && Cleared(log, [])
  {
  }

  class Client {
    const cache: TokenCache?
    const retryMax: int
    const breaker: bool

    constructor (cache: TokenCache?, retryMax: int, breaker: bool)
      ensures this.cache == cache && this.retryMax == retryMax && this.breaker == breaker
    {
      this.cache, this.retryMax, this.breaker := cache, retryMax, breaker;
    }

    /** An attempt the loop goes on from. */
    ghost predicate Retried(a: Attempt) {
      (a.outcome.Failed? && !a.outcome.error.BreakerOpen?) || (Unauthorized(a) && cache != null)
    }

    /** One attempt. Retries ask the cache for a token; the first carries the one the request was prepared with. */
    method ExecuteRequest(first: Option<string>, attempt: nat, turn: Turn)
        returns (outcome: Outcome, sent: bool, ghost record: Attempt)
      requires cache != null ==> cache.Valid()
      modifies cache
      ensures cache != null ==> cache.Valid() && old(cache.log) <= cache.log
      ensures outcome == record.outcome
      ensures outcome == if sent || outcome == Failed(BreakerOpen) then Guarded(breaker, turn) else Failed(NoToken)
      ensures sent && !breaker ==> outcome == turn.outcome
      ensures sent && breaker ==>
                && !turn.refused
                && (turn.outcome.Status? && turn.outcome.code >= 500 ==>
                      outcome == Failed(ServerError(turn.outcome.code)))
                && (turn.outcome.Failed? || turn.outcome.code < 500 ==> outcome == turn.outcome)
      ensures !sent ==> outcome == Failed(NoToken) || (breaker && turn.refused && outcome == Failed(BreakerOpen))
      ensures cache != null ==> |old(cache.log)| <= record.got <= record.ended == |cache.log|
      ensures cache != null && attempt > 0 && record.bearer.Some? ==>
                FetchedIn(cache.log[..record.got], record.bearer.value, 0, record.got)
      ensures attempt == 0 || cache == null ==> record.bearer == first
      ensures cache != null && attempt > 0 && sent ==> record.bearer.Some?
    {
      hide LegalLog, HeldAfter, FetchedIn;
      var bearer := first;
      ghost var mid: seq<Entry> := [];
      if cache != null && attempt > 0 {
        cache.Others(turn.before);
        var token := cache.GetToken(turn.now, turn.between, turn.later, turn.fetch);
        if token.None? {
          return Failed(NoToken), false, Attempt(None, Failed(NoToken), |cache.log|, |cache.log|);
        }
        bearer := token;
      }
      if cache != null {
        mid := cache.log;
        cache.Others(turn.during);
        assert cache.log[..|mid|] == mid;
      }
      outcome := Guarded(breaker, turn);
      sent := !(breaker && turn.refused);
      record := Attempt(bearer, outcome, |mid|, if cache != null then |cache.log| else 0);
    }

    /** The retry loop, for every behaviour of the world. */
    method ExecuteWithRetry(first: Option<string>, turns: nat -> Turn)
        returns (result: Result, requests: nat, ghost attempts: seq<Attempt>)
      requires cache != null ==> cache.Valid()
      modifies cache
      ensures cache != null ==> cache.Valid() && old(cache.log) <= cache.log
      ensures requests <= |attempts| <= if retryMax < 0 then 0 else retryMax
      ensures forall i :: 0 <= i < |attempts| - 1 ==> Retried(attempts[i])
      ensures result.FailedAfter? ==> result.limit == retryMax
      ensures result.FailedAfter? ==> (result.last.Some? <==> retryMax >= 1)
      ensures result.FailedAfter? && retryMax >= 1 ==>
                attempts != [] && attempts[|attempts| - 1].outcome == Failed(result.last.value)
      ensures result.FailedAfter? && |attempts| < retryMax ==> result.last == Some(BreakerOpen)
      ensures result.Response? ==> attempts != [] && attempts[|attempts| - 1].outcome == Status(result.status)
      ensures result == Response(401) && cache != null ==> |attempts| == retryMax
      ensures cache != null ==> Renewed(cache.log, attempts)
    {
      hide LegalLog, HeldAfter, FetchedIn, Renewed, Cleared;
      var last: Option<Error> := None;
      requests := 0;
      attempts := [];
      if cache != null {
        NothingToRenew(cache.log);
      }
      var attempt := 0;
      while attempt < retryMax
        invariant 0 <= attempt && (if retryMax < 0 then attempt == 0 else attempt <= retryMax)
                  && |attempts| == attempt && requests <= attempt
        invariant attempt == 0 ==> last.None?
        invariant forall i :: 0 <= i < |attempts| ==> Retried(attempts[i])
        invariant attempt > 0 && attempts[attempt - 1].outcome.Failed? ==>
                  last == Some(attempts[attempt - 1].outcome.error)
        invariant attempt > 0 && attempt == retryMax ==> attempts[attempt - 1].outcome.Failed?
        invariant cache != null ==> cache.Valid() && old(cache.log) <= cache.log
        invariant cache != null ==> Renewed(cache.log, attempts) && Cleared(cache.log, attempts)
        decreases retryMax - attempt
      {
        var turn := turns(attempt);
        if attempt > 0 && turn.canceled {
          return Canceled, requests, attempts;
        }
        ghost var before := if cache != null then cache.log else [];
        var outcome, sent, record := ExecuteRequest(first, attempt, turn);
        requests := requests + if sent then 1 else 0;
        if cache != null {
          RenewedMore(before, cache.log[..record.got], attempts);
          RenewedNext(cache.log[..record.got], cache.log, attempts, record);
        }
        attempts := attempts + [record];
        attempt := attempt + 1;
        if outcome.Failed? {
          last := Some(outcome.error);
          if outcome.error.BreakerOpen? {
            return FailedAfter(retryMax, last), requests, attempts;
          }
          continue;
        }
        if turn.hookFails {
          return HookFailed, requests, attempts;
        }
        if outcome.code == 401 && cache != null && attempt - 1 < retryMax - 1 {
          ghost var soFar := cache.log;
          cache.Others(turn.after);
          ghost var cleared := |cache.log|;
          cache.Invalidate();
          assert cache.log[cleared].Invalidated?;
          RenewedAfterClearing(soFar, cache.log, attempts, cleared);
          continue;
        }
        return Response(outcome.code), requests, attempts;
      }
      result := FailedAfter(retryMax, last);
    }
  }

  lemma RenewedAfterClearing(log: seq<Entry>, more: seq<Entry>, attempts: seq<Attempt>, m: nat)
    requires Renewed(log, attempts) && log <= more && |log| <= m < |more| && more[m].Invalidated?
    ensures Renewed(more, attempts) && Cleared(more, attempts)
  {
    forall i, j | 0 <= i < j < |attempts| && Unauthorized(attempts[i]) && attempts[j].bearer.Some?
      ensures FetchedIn(more, attempts[j].bearer.value, attempts[i].ended, attempts[j].got)
    {
      FetchedInMore(log, more, attempts[j].bearer.value, attempts[i].ended, attempts[j].got);
    }
  }
}

# A verified model of the core-lab services library

core-lab is a library that services share: a background job runtime with two interchangeable stores, tenant-aware SQL and request
contexts, permission masks and codes, an audit consumer, an outbox, a quota cache and an HTTP client with a token cache. This project
models the parts of it that are protocols, transformations or arithmetic, in Dafny, and proves what they guarantee. `dafny verify
dfyconfig.toml` checks all of it.

**Job runtime** (`Order`, `Jobs`, `MemoryStore`, `RedisStore`, `Listing`, `Refinement`, `Watch`, `History`, `Manager`, `Ownership`,
`Progress`, `Verdicts`, `Room`).
`Jobs` holds the job record and what each call does to one job. `MemoryStore` is a class over a map of heap records; each of its
methods is proved against a function of the stored jobs. `RedisStore` has the keyed jobs and the three sorted-set indexes as a value,
the two scripts as the loops they are, and the batched listing. Four results build on it: the indexes agree with the jobs in every
reachable state; every run of the Redis store is a run of the in-memory store; every interleaving of optimistic clients and scripts is
a sequence of whole calls; and any number of managers, each with any number of dispatchers and workers around one channel, never hold
a job twice and never start it more often than its budget. `History` says what the fields of a stored job mean: each is what the
accepted calls on the job last said about it. `Verdicts` says what the outcome of an attempt makes of the job, and when it runs again.
`Room` says when a dispatcher's send finds room in the channel: always, if a manager is only started again after its `Stop` returned;
otherwise exactly if no two dispatchers counted on the same room.

**Tenant scoping** (`TenantSql`, `TenantSqlExact`, `TenantScope`). The SQL rewriting is compared with a reference reader that follows
the lexical rules of the PostgreSQL manual (sections 4.1.1 to 4.1.5): nested block comments, line comments that end at a line feed or a
carriage return, identifiers, quoted names and string constants. The rewriting of text is right for every tenant exactly if the place it
finds is the one the server reads; `TenantSqlExact` proves this for every statement. `TenantScope` follows a tenant claim from the
token through the request context to the SQL text.

**Smaller cores** (`Masks`, `Codes`, `JsonPaths`, `Audit`, `Quota`, `Tokens`, `Backoff`), with `Text`, `Machine` and `Wrappers` below
them.

Conventions. Times of jobs are integer milliseconds, which is what the Redis indexes store; durations of the configuration are
nanoseconds. Clocks, new identifiers, handler outcomes, the network, the token provider, the circuit breaker and the message log are
parameters or events, so a statement holds for everything they may do. Machine integers are explicit where they matter (`Machine.Wrap`). Go maps are visited in any order: loops pick an
arbitrary key.

Where code and comments disagree the model follows the code. The comment on `PruneTerminalBefore` says "older than the cutoff"; the
Redis script also deletes jobs completed at the cutoff. The HTTP client reports the configured number of attempts even when an open
breaker ended the loop earlier.

## Model

| member | source | states |
|---|---|---|
| Jobs.Apply | pkg/jobs/redis_store.go:351-421 | No update changes a job's identity, type, queue, budget or creation time; it is refused exactly for cancelling a job that is not pending and retrying one that is neither failed nor canceled; after it the job is never running, terminal iff it has a completion time, and pending only from its retry time on or, with fresh attempts, at once after an admin retry |
| Jobs.StartAttempt | pkg/jobs/redis_store.go:73-79 | A claim makes the job running, counts one attempt, notes the time and leaves every other field, payload included |
| History.MemoryTells | pkg/jobs/store.go:51-320 | In every run of the in-memory store status, result, last error, attempts and times of a stored job are, field by field, what the accepted calls on it last said, and identity, payload, metadata, budget and timeout are those it was created with |
| History.RedisTells | pkg/jobs/redis_store.go:351-421 | The same in every run of the Redis store |
| History.ConcurrentTells | pkg/jobs/redis_store.go:478-526 | The same under every interleaving of optimistic clients and scripts |
| History.OutcomeIff | pkg/jobs/store.go:205-278 | A job is succeeded, failed or canceled exactly if the last accepted act on it says so, with that act's result, reason and time |
| History.RefusalIff | pkg/jobs/store.go:257-292 | Which refusal an update gets: not found, running, already terminal or not retryable, each exactly for its case, and nothing changes |
| Order.StrLtIff | pkg/jobs/store.go:177-182 | The order of ids: one comes first iff it is a proper beginning of the other or has the smaller character where they first differ |
| Jobs.FiltersAgreeIff | pkg/jobs/store.go:136-172 | The two stores read a claim filter alike for all queues and types exactly if it names no blank queue or type |
| MemoryStores.ClaimIsOptimal | pkg/jobs/store.go:128-202 | By the jobs' fields: a claim returns min(limit, claimable) jobs ordered by availability and id, each ahead of every claimable job left behind; only those begin an attempt, other due scheduled jobs become queued, and nothing else changes; map order does not matter |
| MemoryStores.StepMeetsContract | pkg/jobs/store.go:51-320 | Every call honours the contract of calls: replies, refusals, what is stored and how many jobs a prune removed |
| MemoryStores.ChosenMeetContract | pkg/jobs/store.go:188-201 | Any store that starts chosen due jobs and at most promotes others honours the contract workers rely on: distinct jobs, due before, stored as returned, all else unchanged |
| MemoryStores.ClaimMeetsContract | pkg/jobs/store.go:128-202 | The in-memory claim honours that contract |
| MemoryStores.PruneMeetsContract | pkg/jobs/store.go:305-320 | Exactly the succeeded, failed and canceled jobs completed strictly before the cutoff go, the count is theirs, and nothing else changes |
| MemoryStores.ListingIsOrdered | pkg/jobs/store.go:88-109 | The listing holds exactly the stored jobs with the filter's queue, type and one of its statuses, each if given, once, newest first, ties by ascending id |
| MemoryStores.PageIs | pkg/jobs/store.go:111-124 | A page starts at the offset, or at the front if that is negative, and goes on for limit jobs, or to the end if that is not positive or too much |
| MemoryStores.PagesPartition | pkg/jobs/store.go:111-124 | Pages of any size n > 0, one after another, are the whole listing |
| MemoryStores.Window | pkg/jobs/store.go:111-124 | Offset and limit select exactly the listing without its first offset jobs, cut at limit; no limit means all |
| MemoryStores.Prefer | pkg/jobs/store.go:177-186 | Sorting and cutting the candidates gives the first limit of the sorted set, whatever order they came in |
| MemoryStores.MemoryStore.Create | pkg/jobs/store.go:51-64 | A new id is stored, a known id is refused and nothing changes |
| MemoryStores.MemoryStore.Change | pkg/jobs/store.go:205-302 | The record under the id is rewritten in place by exactly the update, or refused with the update's error |
| MemoryStores.MemoryStore.Scan | pkg/jobs/store.go:156-175 | Every due scheduled job is promoted, also those the filter rejects, and the candidates are exactly the eligible jobs |
| MemoryStores.MemoryStore.Start | pkg/jobs/store.go:188-201 | The claim loop starts exactly the chosen jobs, in order, through their stored records |
| MemoryStores.MemoryStore.ClaimReady | pkg/jobs/store.go:128-202 | The in-place claim has exactly the effect and reply of the claim that is proved optimal |
| MemoryStores.MemoryStore.PruneTerminalBefore | pkg/jobs/store.go:305-320 | Exactly the terminal jobs completed strictly before the cutoff go, and their number is returned |
| MemoryStores.MemoryStore.List | pkg/jobs/store.go:79-125 | The page is the requested window of the sorted, filtered listing |
| RedisStores.StepKeepsIndexes | pkg/jobs/redis_store.go:564-580 | Every call keeps available, terminal and created equal to what the stored jobs determine |
| RedisStores.ReachableIndexesAgree | pkg/jobs/redis_store.go:163-216 | After any sequence of calls the three indexes are exactly what the stored jobs determine, members and scores |
| RedisStores.PruneDeletesTerminalOnly | pkg/jobs/redis_store.go:94-107 | In every reachable state the prune script, which reads no status, deletes exactly the terminal jobs completed up to and including the cutoff |
| RedisStores.ClaimScriptMeetsContract | pkg/jobs/redis_store.go:34-92 | The claim script honours the same contract as the in-memory claim |
| RedisStores.ClaimScriptTakes | pkg/jobs/redis_store.go:35-82 | The script claims a job exactly if it is ready, the filter names its queue and type, and fewer than limit ready jobs come before it, wanted or not |
| RedisStores.RedisMeetsContract | pkg/jobs/redis_store.go:163-216 | Every call honours the same contract of calls as the in-memory store |
| RedisStores.RedisServer.ClaimReady | pkg/jobs/redis_store.go:34-92 | The script's loop over the first limit due ids starts exactly those that are pending and pass the filter, and drops from the index what it started or found not pending |
| RedisStores.RedisServer.Visit | pkg/jobs/redis_store.go:61-89 | One turn of the loop: the four outcomes for a started, rejected, stale and missing id |
| RedisStores.RedisServer.PruneTerminalBefore | pkg/jobs/redis_store.go:94-107 | Exactly the ids scored up to the cutoff vanish from the jobs and from all three indexes, and are counted |
| RedisStores.BatchedScan | pkg/jobs/redis_store.go:234-291 | Scanning 250 ids at a time equals filtering the whole reversed index, dropping offset and taking limit, for every offset and batch boundary |
| RedisStores.Collect | pkg/jobs/redis_store.go:261-283 | One batch continues the scan, or stops inside the batch with the limit met |
| RedisStores.RedisServer.List | pkg/jobs/redis_store.go:234-291 | The listing call is that scan, with 100 for a missing limit |
| Listing.RedisListingIsOrdered | pkg/jobs/redis_store.go:247-291 | The scan lists exactly the stored jobs with the filter's queue, type and one of its statuses, each if given, once, newest first, ties by descending id |
| Listing.OrdersAgreeIff | pkg/jobs/redis_store.go:248-283 | Of the same jobs both stores make the same listing exactly if no two matching ones were created in the same millisecond |
| Listing.ListingsAgreeIff | pkg/jobs/redis_store.go:261-279 | In related states of the two stores the listings are the same, up to pending status and update time, exactly if the filter matches the same jobs in both and no two of them were created in the same millisecond |
| Listing.UnsplitMatches | pkg/jobs/redis_store.go:268-272 | A filter that names both pending statuses or neither does match the same jobs in related states |
| Refinement.TakenIsChosen | pkg/jobs/redis_store.go:35-73 | The script starts exactly the first k jobs the in-memory store would choose, k its own count |
| Refinement.ClaimRefines | pkg/jobs/redis_store.go:34-92 | A Redis claim has the effect and reply of an in-memory claim with some k not above the limit |
| Refinement.ClaimsAgreeIff | pkg/jobs/redis_store.go:35-72 | Both claims return the same exactly if the filter rejects none of the first limit due jobs or no claimable job lies beyond them |
| Refinement.StarvedClaim | pkg/jobs/redis_store.go:35-72 | A family of reachable, related states where they differ: two jobs created, one slot, the one of another type in front; the script claims nothing, the in-memory store claims the other job |
| Refinement.PruneRefines | pkg/jobs/redis_store.go:94-107 | Pruning at c in Redis is pruning at c + 1 in memory |
| Refinement.StepRefines | pkg/jobs/redis_store.go:34-107 | Each Redis call is one in-memory call with the same reply, pending statuses merged and the update time dropped |
| Refinement.RunRefines | pkg/jobs/redis_store.go:34-107 | Every run of the Redis store is a run of the in-memory store, call by call: same replies and related final states |
| Watch.Linearizable | pkg/jobs/redis_store.go:478-526 | After any interleaving of WATCH/EXEC clients and scripts there is a sequence of whole calls that gives the server's state and each reply; every finished call has an entry of its own client, placed between the call and its return |
| Watch.EventsAreAtomic | pkg/jobs/redis_store.go:484-513 | Every event is invisible or is one whole atomic call, answered to the client that made it |
| Watch.LosersChangeNothing | pkg/jobs/redis_store.go:514-517 | An attempt that loses the race changes no job, index or other client; it starts over or, at the fifth, ends the call |
| Watch.FiveLosses | pkg/jobs/redis_store.go:205-216 | In every run a call that ends without success lost the race exactly five times since it was made, and no entry of the history is its doing |
| Watch.ConcurrentRunRefinesMemory | pkg/jobs/redis_store.go:163-216 | Whatever is interleaved, the replies and the final state are those of one sequential run of the in-memory store |
| Managers.ConfigSettles | pkg/jobs/manager.go:557-594 | Every setting that was given is kept, and every other one becomes its documented default |
| Managers.UsableIsKept | pkg/jobs/manager.go:557-594 | Usable settings are left alone |
| Managers.BuildJob | pkg/jobs/manager.go:176-252 | Enqueue refuses exactly unnamed and unregistered types; else the job is unclaimed, scheduled iff its time lies ahead, carries the request's payload and metadata and the manager's name unless one was given, and takes queue, budget and timeout from the request, else the handler, else the settings |
| Ownership.StepKeepsInv | pkg/jobs/manager.go:104-173 | Every enqueue, start, stop, cancellation, claim, send, receive, finish, admin call, prune, loss and crash keeps single ownership and the budget, for any number of managers, dispatchers and workers |
| Ownership.SingleOwnership | pkg/jobs/manager.go:378-460 | In every run of any number of managers and dispatchers a job id has at most one holder (claimed list, channel or worker), and the held copy is the stored job, which is running |
| Ownership.HeldUntouched | pkg/jobs/manager.go:403-460 | No cancel, retry, prune, second claim or other worker's finish touches a held job; only its holder's finish does |
| Room.SendNeverBlocks | pkg/jobs/manager.go:378-400 | In every run in which no dispatcher of a manager counted free slots while another one counted on them, a dispatcher with claimed jobs left finds room, and so does all that is still to be sent |
| Room.SendNeverBlocksAfterStop | pkg/jobs/manager.go:104-164 | So it does in every run in which the manager is only started again once its earlier dispatchers are gone, which is when Stop returns |
| Room.SendsFindRoomIff | pkg/jobs/manager.go:393-398 | However dispatchers take turns, their sends find room without a worker receiving exactly if channel and claimed jobs together fit the buffer |
| Room.CountFitsIff | pkg/jobs/manager.go:379-389 | Counting slots keeps what is claimed or may be claimed within the free part of the channel exactly if no other dispatcher counts on it |
| Room.CanBlockIff | pkg/jobs/manager.go:378-400 | From any state that keeps the invariant a send can come to block, without a worker receiving or a dispatcher counting and with every claim answered as the in-memory store does, exactly if what is counted and claimed does not fit |
| Room.CountCanBlockIff | pkg/jobs/manager.go:379-398 | When a dispatcher counts in a state that fits, a send can block later on exactly if another dispatcher counts on the same room |
| Room.RunCanBlockIff | pkg/jobs/manager.go:378-400 | In every run without overlapping counts so far, a step opens the way to a blocked send exactly if it is an overlapping count |
| Room.FitsNeverBlocks | pkg/jobs/manager.go:393-398 | From a state that fits no path without overlapping counts ends with a blocked send, whatever else happens on it |
| Room.OverlapBlocks | pkg/jobs/manager.go:146-163 | For every configuration and handler there is a run with a Start made while Stop waits, all claims answered as the in-memory store does, to a state where a dispatcher holds a claimed job, the channel is full and no send is possible |
| Ownership.RetryBudget | pkg/jobs/manager.go:462-483 | In every run each status bounds the attempts, a job is terminal iff it has a completion time, and its count of starts is within its budget |
| Verdicts.WorkersKeepBudget | pkg/jobs/manager.go:403-426 | In every run workers receive a job at most as often as its budget allows between admin retries |
| Verdicts.FinishMeans | pkg/jobs/manager.go:428-483 | In every run the end of an attempt stores what its verdict says: a success with its result; a failure with its reason, failed iff the held attempt was the last and else scheduled for now plus the backoff of that attempt; all other jobs stay |
| Verdicts.EndedForGood | pkg/jobs/store.go:281-302 | In every run a job that has ended stays as it was, unheld and unstarted, until an admin retries it or it is pruned |
| Verdicts.WaitsItsTime | pkg/jobs/manager.go:466-468 | In every run a pending job no admin touches is claimed no earlier than its availability, so no attempt starts before the backoff has passed |
| Verdicts.BackoffIsExponential | pkg/jobs/manager.go:467-468 | The wait is min(base * 2^(attempt-1), max) in whole milliseconds and never shrinks, if max is reached before doubling leaves int64 |
| Verdicts.DefaultsBackOff | pkg/jobs/types.go:256-271 | The default delays meet that condition |
| Progress.RunningIffHeld | pkg/jobs/manager.go:389-399 | As long as no claim or finish is lost, no send abandoned and no manager crashed, a job is running iff somebody holds it |
| Progress.StepSpends | pkg/jobs/manager.go:462-483 | A step leaves a job, promotes it or lowers its rank; only an admin retry raises it |
| Progress.BoundedChanges | pkg/jobs/manager.go:462-483 | Between admin retries a job changes at most twice per attempt, and when the rank is spent it is terminal |
| Backoff.RetryDelayFor | pkg/jobs/manager.go:510-525 | The loop on wrapping int64 durations computes the recursive delay below |
| Backoff.JobDelayExactIff | pkg/jobs/manager.go:510-525 | The delay is min(base * 2^(attempt-1), max) for every attempt exactly if base is below 2^62 and max is reached before doubling leaves int64 |
| Backoff.JobDelayMonotoneIff | pkg/jobs/manager.go:510-525 | Delays never shrink with the attempt exactly under that condition; otherwise some later delay is negative |
| Backoff.NormalizeBounds | pkg/events/outbox/processor.go:88-96 | Whatever is configured, 0 < min <= max, and sensible bounds are kept |
| Backoff.RetryBackoff | pkg/events/outbox/processor.go:193-211 | The outbox loop on wrapping durations computes the recursive delay below |
| Backoff.RescheduledInBounds | pkg/events/outbox/processor.go:169-171 | A failed record is rescheduled within [now + min, now + max], wrap-around included |
| Backoff.OutboxDelayExactIff | pkg/events/outbox/processor.go:193-211 | The outbox delay is min(min * 2^(attempt-1), max) for every attempt exactly if max is reached before doubling leaves int64 |
| Backoff.OutboxDelayMonotoneIff | pkg/events/outbox/processor.go:193-211 | Outbox delays never shrink with the attempt exactly under that condition or, for a minimum of 2^62 or more, if the first of its 63 wrapped doublings above the minimum reaches the maximum |
| TenantSql.SkipLeadingTrivia | pkg/postgres/tenant_sql.go:124-148 | The index loops end, stay in bounds and compute the length of the skipped text, on every input |
| TenantSql.SkipLine | pkg/postgres/tenant_sql.go:130-134 | The inner loop over a line comment stops before the line feed or at the end |
| TenantSql.SkipBlock | pkg/postgres/tenant_sql.go:135-142 | The inner loop over a block comment stops behind the first closing mark or, without one, before the last character |
| TenantSql.ReadsBack | pkg/postgres/tenant_sql.go:105-107 | A doubled text read by the string-constant rules (section 4.1.2.1) ends at its own closing quote and gives back the value |
| TenantSql.StatementReads | pkg/postgres/tenant_sql.go:101-107 | The transaction statement reads as one call whose second constant is the trimmed tenant, whatever characters it holds |
| TenantSql.LexClause | pkg/postgres/tenant_sql.go:97-99 | The tenant clause reads as `_tenant_scope AS (SELECT set_config(...))` in front of any text |
| TenantSql.TriviaVanishes | pkg/postgres/tenant_sql.go:124-148 | Closed, unnested leading comments and white space in front of any text make no difference to what is read |
| TenantSql.FindsKeyword | pkg/postgres/tenant_sql.go:150-161 | Behind plain trivia the source finds a keyword exactly if the server reads it |
| TenantSql.InjectMeansScoped | pkg/postgres/tenant_sql.go:88-122 | For every plain statement the output reads as the token rewriting of the input: the clause first among the expressions, same recursive flag, all else kept |
| TenantSql.FrontIsRightIff | pkg/postgres/tenant_sql.go:91-93 | When the source finds no WITH, the output is right exactly if the server reads none |
| TenantSql.NestedCommentBreaks | pkg/postgres/tenant_sql.go:135-142 | A nested leading comment in front of WITH makes the output wrong, for every rest and tenant |
| TenantSql.RemovingGivesBack | pkg/postgres/tenant_sql.go:88-95 | Taking the inserted text out gives back the statement |
| TenantSqlExact.Effect | pkg/postgres/tenant_sql.go:94-94 | Inserted behind any letter of any text, the clause adds exactly its own tokens only if the server reads a word ending there |
| TenantSqlExact.InjectIsRightIff | pkg/postgres/tenant_sql.go:88-122 | For every statement: the rewriting is right for all tenants exactly if its place is the one behind the leading WITH or WITH RECURSIVE that the server reads |
| TenantSqlExact.PlainIsRight | pkg/postgres/tenant_sql.go:109-148 | Plain statements have their place right |
| Text.TrimSplits | pkg/tenant/context.go:35-41 | Trimming takes away spaces at both ends and nothing else |
| TenantScope.UpdateChangesItsOwn | pkg/auth/context.go:46-189 | Each context update replaces the one value it names, by the trimmed text if not blank, and leaves what readers see of the others; super-admin can be set but not cleared |
| TenantScope.IsBlocked | pkg/auth/tenant_access.go:230-241 | A status is blocked iff it is not blank and equals a listed one after lower-casing and trimming |
| TenantScope.ClaimsSay | pkg/auth/claims.go:24-87 | The tenant is the trimmed text of the claim tenant_id, the user the identity or, if blank, the subject |
| TenantScope.ServiceTokenIff | pkg/auth/claims.go:19-21 | A service token is one whose use is service in any case, blanks aside |
| TenantScope.ScopeOrder | pkg/auth/tenant_access.go:187-213 | Explicit goes before inferred and path before query; explicit and inferred scopes that differ conflict |
| TenantScope.DatabaseTenantOrder | pkg/postgres/tenant_sql.go:65-86 | The database layer takes the tenant from the request contract, the two context keys, or the claims of a caller that is no service, in this order |
| TenantScope.Refusal | pkg/auth/tenant_access.go:124-172 | The ordered checks pass exactly if the rule admits the caller: claims decide, requests may only repeat them |
| TenantScope.Gin.SetTenantId | pkg/auth/tenant.go:51-60 | A nonblank tenant replaces the key and scopes the request's context; a blank one changes nothing |
| TenantScope.Gin.SetUserId | pkg/auth/tenant.go:63-72 | The same for the user |
| TenantScope.Gin.ResolveTenantUserScope | pkg/auth/tenant_access.go:101-185 | A request passes exactly if the caller is known, explicit and inferred scopes agree and the rule admits it; then the claims' scope is returned and carried by the context; a refusal has status 401, 400 or 403 and changes no scope |
| TenantScope.TenantStays | pkg/auth/context.go:66-131 | No run of user, service, correlation or super-admin updates changes the tenant of any context |
| TenantScope.ClaimReachesDatabase | pkg/postgres/tenant_sql.go:65-107 | A tenant claim t of a user token in a resolved scope survives all later updates but the tenant's own; the transaction statement, and every statement whose place is right, then carry a constant that the server reads as exactly t |
| TenantScope.Serve | pkg/postgres/tenant_sql.go:37-59 | A whole request, from resolving its scope over later updates to both SQL texts: if a user token with tenant claim t passes, the server reads exactly t in each |
| Masks.HasPermissionIff | pkg/auth/claims.go:91-111 | The bit test of the code holds exactly if the bit is set in the range the number falls into |
| Masks.BitMaskInRange | pkg/auth/claims.go:102-104 | A position within a range never reaches the sign bit |
| Masks.SplitInjective | pkg/auth/claims.go:102-103 | Range and position determine the permission number |
| Masks.DecodeRanges | pkg/auth/authorizer.go:576-590 | The loop reads the ranges, dropping blank and invalid ones |
| Masks.RangesKeepPlacesIff | pkg/auth/authorizer.go:578-589 | Ranges keep their places exactly if none is blank or invalid; a dropped one shifts the later ones |
| Masks.ParseIntReads | pkg/auth/authorizer.go:583-583 | Base-36 text is read with either sign, and refused exactly if it leaves int64 |
| Masks.UpperDigits | pkg/auth/authorizer.go:583-583 | Upper-case digits mean the same |
| Masks.EntryCountsIff | pkg/auth/authorizer.go:557-594 | An entry counts exactly if it has a colon, a nonblank name before it and a valid range after it, under the lower-cased name |
| Masks.Decode | pkg/auth/authorizer.go:551-596 | The decoder's loops compute the decoding that the round trip is proved for |
| Masks.RoundTrip | pkg/auth/authorizer.go:551-596 | Decoding base-36 text of any services and 63-bit masks gives back every service with its masks |
| Masks.MasksMeanSets | pkg/auth/claims.go:91-111 | After packing, printing and decoding, a permission is held iff its number is in the service's set, in any spelling of the service |
| Masks.UnknownService | pkg/auth/claims.go:95-98 | A service that no policy names holds no permission |
| Masks.EnoughRanges | pkg/auth/claims.go:102-107 | Every finite set of numbers fits some number of ranges |
| Codes.SqueezePieces | pkg/permissions/catalog.go:85-87 | Spaces are taken out and every other character stays in its place |
| Codes.NormalizeShape | pkg/permissions/catalog.go:85-87 | A normalised part is trimmed and in lower case, empty exactly for blank text, and keeps its hyphens |
| Codes.NormalizeIdempotent | pkg/permissions/catalog.go:85-87 | Normalising twice is normalising once |
| Codes.RoundTripIff | pkg/auth/permission_decision.go:151-163 | Parsing a generated code gives the normalised reference exactly if no part is blank and service and category have no hyphen |
| Codes.ParsedParts | pkg/auth/permission_decision.go:151-163 | Whatever is parsed, the parts are trimmed and not blank, and only the action can hold a hyphen |
| Codes.CodesInjective | pkg/permissions/catalog.go:81-83 | Codes of such references are equal iff the normalised references are |
| Codes.HyphensCollide | pkg/permissions/catalog.go:81-83 | Without the condition codes collide: a-b, c, d and a, b, c-d |
| Codes.Catalog.constructor | pkg/permissions/catalog.go:34-47 | Both maps hold the last definition of each name and of each code, and nothing else |
| Codes.Catalog.ByCode | pkg/permissions/catalog.go:61-64 | Finds the last definition with the code, and none exactly if there is none |
| Codes.LookupByReference | pkg/permissions/catalog.go:61-64 | Looking a reference up by its code finds a definition iff one has the same normalised reference, and then one that has |
| JsonPaths.Lookup | pkg/authz/middleware.go:658-680 | The loop over the parts follows the path |
| JsonPaths.Flatten | pkg/auth/permission_decision.go:335-355 | For clean keys the recursion adds exactly the rendered leaves below the prefix, whatever the order of the fields |
| JsonPaths.FlatIffLookup | pkg/auth/permission_decision.go:335-374 | The flat map sends a path to s iff the path has no stray blanks and looking it up finds a value that renders to s |
| JsonPaths.WalkIgnoresBlanks | pkg/authz/middleware.go:664-668 | Lookup finds the same for a path with blanks around its parts |
| JsonPaths.RendersTo | pkg/auth/permission_decision.go:357-374 | Both places render alike: trimmed nonblank text, true or false, the digits of a number, and nothing else |
| JsonPaths.FlattenRequest | pkg/auth/permission_decision.go:335-374 | Flattening a request and looking it up agree on every path and string |
| Audit.AtLeastOnce | pkg/audit/consumer.go:119-162 | In every run with failures, shutdowns and restarts, each decodable message below the committed offset has itself been appended, repeated events included |
| Audit.AppendsFollowLog | pkg/audit/consumer.go:119-162 | Since the last restart the appended events are exactly the log's, offset by offset, in order, without gaps or repetitions |
| Audit.AppendsAreFromLog | pkg/audit/consumer.go:135-156 | In every run each append carries the event of the message at its offset |
| Audit.ExactlyOnce | pkg/audit/consumer.go:119-162 | While no commit is lost, through every other failure and restart, the store holds each event dealt with exactly once, in order, and all of it is committed |
| Audit.LossRepeats | pkg/audit/consumer.go:158-160 | The first loss of an event's commit, by a failure or a shutdown before it, lets a restart append that event a second time |
| Quota.DecisionCache.Store | pkg/quota/sentinel.go:344-362 | The decision replaces the key's entry; blank keys and a time to live that is not positive change nothing |
| Quota.DecisionCache.Fallback | pkg/quota/sentinel.go:364-410 | The reply and the new cache are those of spending the cached decision |
| Quota.NeverOverAdmits | pkg/quota/sentinel.go:389-407 | After an allowed decision with r remaining, any run of fallbacks with positive deltas is admitted for at most r in all |
| Quota.NothingAfterExpiry | pkg/quota/sentinel.go:349-380 | After any stored decision and any fallbacks, nothing is answered past stored time plus time to live, or past a reset time that parses |
| Quota.AnsweredUntilExpiry | pkg/quota/sentinel.go:349-380 | Up to and including the earlier of those times every fallback on the key is answered |
| Quota.FirstReply | pkg/quota/sentinel.go:382-409 | The answer is the stored decision: refused or uncounted as it was, else admitted iff the delta is not above what remains; a refusal for that has reason quota_exceeded, status 429 and nothing remaining |
| Quota.KeepsRefusing | pkg/quota/sentinel.go:382-401 | After a refusal every fallback is refused or unanswered until the next store |
| Quota.RefusalCloses | pkg/quota/sentinel.go:382-401 | A refusal leaves the entry refusing |
| Quota.SumKeptIff | pkg/quota/sentinel.go:403-407 | An admitted step takes its delta from the remaining count; used plus remaining stays constant exactly if the used count does not overflow |
| Tokens.FetchesAreSpaced | pkg/http/token.go:57-84 | In every interleaving, the next write after a fetch of a nonempty token is an invalidation or a fetch inside that token's refresh window |
| Tokens.HitsAreFresh | pkg/http/token.go:41-55 | A token served from the cache was fetched before, is outside its refresh window, and nothing was written since |
| Tokens.TokenCache.Peek | pkg/http/token.go:42-51 | The read-locked check hits exactly if the token is nonempty and outside its window, and changes nothing |
| Tokens.TokenCache.Refresh | pkg/http/token.go:57-76 | The write-locked refresh checks again, then stores a granted token or fails and keeps the old one |
| Tokens.TokenCache.Invalidate | pkg/http/token.go:79-84 | The token is cleared |
| Tokens.TokenCache.GetToken | pkg/http/token.go:41-76 | With other goroutines at work in between, the token returned was fetched and not invalidated since |
| Tokens.Client.ExecuteRequest | pkg/http/client.go:303-333 | One attempt: retries carry a token from the cache, and the outcome is the breaker's view of the transport |
| Tokens.Client.ExecuteWithRetry | pkg/http/client.go:244-286 | At most retryMax attempts; a final failure wraps the last attempt's error (nothing exactly if retryMax < 1); every retry after a 401 carries a token fetched after it |

## Left out

- Refinement.RunRefines: compares times in milliseconds, merges queued with scheduled and drops the update time, and takes claim filters without blank names; `Jobs.FiltersAgreeIff` shows the last is exactly what is needed.
- Refinement.ClaimsAgreeIff: for filters without blank names, for the same reason.
- TenantSql.InjectMeansScoped: plain statements only (closed, unnested comments, no carriage return in a line comment, no vertical tab, no dollar sign or non-ASCII letter after a keyword); `TenantSqlExact.InjectIsRightIff` gives the exact condition for all statements.
- JsonPaths.FlatIffLookup: for keys that are trimmed, not empty and free of dots; other keys can collide, and then the flat map depends on the order of iteration.
- JsonPaths.Flatten: says nothing for other keys, for the same reason.
- Masks.RoundTrip: for service names in lower case without blanks around them, colons or semicolons, which are the ones the text form can carry.
- Masks.MasksMeanSets: for the last entry of a service, since later entries replace earlier ones.
- Codes.RoundTripIff: lower-casing is modelled for ASCII letters (`Text.ToLower`).
- TenantScope.ServiceTokenIff: for uses without the long s, which folds to s as well.
- TenantScope.IsBlocked: for the same reason, statuses with letters outside ASCII are compared as they are.
- Masks.Decode: for the same reason, service names with letters outside ASCII keep their case.
- Progress.BoundedChanges: fairness of goroutines is not modelled, so it bounds the changes and does not say that they happen.
- Tokens.Client.ExecuteWithRetry: request preparation, hooks other than their failure, bodies and the growing delay are not modelled.
- Audit.AtLeastOnce: an append that fails is taken not to have reached the store; one that did would only add a repetition.
- Sub-millisecond parts of job times, which the Redis indexes cut off, and the conversion of times to UTC.
- JSON and cjson encoding of jobs, Redis network errors, and MGET running apart from the listing's range query; lost replies appear as claims or finishes without a holder.
- How many workers a manager has: any number may receive, so the configured count, which several starts multiply, bounds nothing here.
- Merging request metadata into a job on enqueue, `Stats`, metrics, logging, health and HTTP handlers of the job runtime.
- Handler bodies and timeouts: a handler is any success or failure at any time.
- In the lexical reference: dollar-quoted texts, escape string constants, numbers and operators of several characters, which it reads as words, constants and symbols; `TenantSqlExact.InjectIsRightIff` is relative to that reading. A statement that leads with WITH can hold them only in the part that is kept as it is.
- `ContextWithClaims`, `MergeMetadata` and other values that callers put into a context; a gin context handed to the database layer in place of the request's.
- JWT verification, key parsing, TLS, CORS, configuration, the circuit breaker and the rate limiter, which are other libraries' code.
- `quota.Enforcer`, whose idle cleanup drops the day's counter, and the outbox store, which is not part of this model.
- Error packages, validators, translations, identifiers and other utilities, which would only add easy members.

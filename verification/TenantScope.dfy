/** Tenant scope of a request: who the caller is, which tenant was asked for, what the request's context carries from
    there on, and what reaches the database.

    A context is modelled by the values this code keeps in it. A missing context is the empty one.
 */
module TenantScope {
  import opened Text
  import opened Wrappers
  import TenantSql
  import TenantSqlExact

  // ---------------------------------------------------------------------------------------------
  // The request contract

  datatype RequestContext = RequestContext(
    tenantId: string, actorUserId: string, serviceId: string, correlationId: string, isSuperAdmin: bool)

  const NO_REQUEST := RequestContext("", "", "", "", false)

  function Normalize(rc: RequestContext): RequestContext {
    RequestContext(Trim(rc.tenantId), Trim(rc.actorUserId), Trim(rc.serviceId), Trim(rc.correlationId), rc.isSuperAdmin)
  }

  predicate IsEmpty(rc: RequestContext) {
    Normalize(rc) == NO_REQUEST
  }

  function Or(first: string, second: string): string {
    if first == "" then second else first
  }

  function WithFallbacks(rc: RequestContext, other: RequestContext): RequestContext {
    var a, b := Normalize(rc), Normalize(other);
    RequestContext(Or(a.tenantId, b.tenantId), Or(a.actorUserId, b.actorUserId), Or(a.serviceId, b.serviceId),
                   Or(a.correlationId, b.correlationId), a.isSuperAdmin || b.isSuperAdmin)
  }

  // ---------------------------------------------------------------------------------------------
  // Claims

  /** What a claim can hold: text, or something that is no text. */
  datatype ClaimValue = Text(text: string) | NotText

  datatype Claims = Claims(subject: string, identityId: string, tokenUse: string, raw: map<string, ClaimValue>)

  function ClaimString(claims: Claims, key: string): string {
    if key in claims.raw && claims.raw[key].Text? then Trim(claims.raw[key].text) else ""
  }

  function ClaimTenant(claims: Claims): string {
    ClaimString(claims, "tenant_id")
  }

  function ClaimUser(claims: Claims): string {
    if Trim(claims.identityId) != "" then Trim(claims.identityId) else Trim(claims.subject)
  }

  /** Case folding of ASCII letters and of the long s, the one other letter that folds to a letter of `service`. */
  function Fold(c: char): char {
    if c == '\U{17F}' then 's' else LowerChar(c)
  }

  predicate EqualFold(s: string, word: string) {
    |s| == |word| && forall i :: 0 <= i < |s| ==> Fold(s[i]) == Fold(word[i])
  }

  predicate IsServiceToken(claims: Claims) {
    EqualFold(Trim(claims.tokenUse), "service")
  }

  /** What the claims say: the tenant is the text of the claim `tenant_id`, if it is text; the user is the identity
      or, if that is blank, the subject; all of it trimmed. */
  lemma ClaimsSay(claims: Claims, tenant: string)
    ensures Get(claims.raw, "tenant_id") == Some(Text(tenant)) ==> ClaimTenant(claims) == Trim(tenant)
    ensures Get(claims.raw, "tenant_id") == None || Get(claims.raw, "tenant_id") == Some(NotText) ==>
              ClaimTenant(claims) == ""
    ensures Trim(claims.identityId) != "" ==> ClaimUser(claims) == Trim(claims.identityId)
    ensures Trim(claims.identityId) == "" ==> ClaimUser(claims) == Trim(claims.subject)
  {
    hide Trim;
  }

  /** A service token is one whose use is `service` in any case, blanks aside. */
  lemma ServiceTokenIff(claims: Claims)
    requires '\U{17F}' !in Trim(claims.tokenUse)
    ensures IsServiceToken(claims) <==> ToLower(Trim(claims.tokenUse)) == "service"
  {
    hide Trim;
    var use := Trim(claims.tokenUse);
    assert forall i :: 0 <= i < |use| ==> use[i] in use && Fold(use[i]) == LowerChar(use[i]);
    assert forall i :: 0 <= i < |"service"| ==> Fold("service"[i]) == "service"[i];
  }

  // ---------------------------------------------------------------------------------------------
  // Contexts

  /** The values kept in a context: the request contract, the keys `resolved_tenant_id`, `tenant_id` and
      `resolved_user_id`, and the claims. */
  datatype Context = Context(
    request: Option<RequestContext>, resolvedTenant: Option<string>, tenant: Option<string>,
    resolvedUser: Option<string>, claims: Option<Claims>)

  function PutRequest(ctx: Context, rc: RequestContext): Context {
    if IsEmpty(rc) then ctx else ctx.(request := Some(Normalize(rc)))
  }

  function GetRequest(ctx: Context): Option<RequestContext> {
    if ctx.request.Some? && !IsEmpty(ctx.request.value) then Some(Normalize(ctx.request.value)) else None
  }

  /** Puts `rc` over what the context already has. */
  function MergeRequest(ctx: Context, rc: RequestContext): Context {
    match GetRequest(ctx)
    case Some(existing) => PutRequest(ctx, WithFallbacks(rc, existing))
    case None => PutRequest(ctx, rc)
  }

  function WithTenantId(ctx: Context, tenantId: string): Context {
    var scoped := Trim(tenantId);
    if scoped == "" then ctx
    else MergeRequest(ctx, NO_REQUEST.(tenantId := scoped)).(resolvedTenant := Some(scoped), tenant := Some(scoped))
  }

  function WithUserId(ctx: Context, userId: string): Context {
    var scoped := Trim(userId);
    if scoped == "" then ctx
    else MergeRequest(ctx, NO_REQUEST.(actorUserId := scoped)).(resolvedUser := Some(scoped))
  }

  function WithServiceId(ctx: Context, serviceId: string): Context {
    var scoped := Trim(serviceId);
    if scoped == "" then ctx else MergeRequest(ctx, NO_REQUEST.(serviceId := scoped))
  }

  function WithCorrelationId(ctx: Context, correlationId: string): Context {
    var scoped := Trim(correlationId);
    if scoped == "" then ctx else MergeRequest(ctx, NO_REQUEST.(correlationId := scoped))
  }

  function WithSuperAdmin(ctx: Context, isSuperAdmin: bool): Context {
    match GetRequest(ctx)
    case Some(existing) => PutRequest(ctx, existing.(isSuperAdmin := existing.isSuperAdmin || isSuperAdmin))
    case None => if isSuperAdmin then PutRequest(ctx, NO_REQUEST.(isSuperAdmin := true)) else ctx
  }

  /** The first of the values that is not blank. */
  function FirstOf(values: seq<Option<string>>): Option<string> {
    if values == [] then None
    else if values[0].Some? && Trim(values[0].value) != "" then Some(Trim(values[0].value))
    else FirstOf(values[1..])
  }

  function TenantIdOf(ctx: Context): Option<string> {
    var rc := GetRequest(ctx);
    if rc.Some? && Trim(rc.value.tenantId) != "" then Some(rc.value.tenantId)
    else FirstOf([ctx.resolvedTenant, ctx.tenant])
  }

  function UserIdOf(ctx: Context): Option<string> {
    var rc := GetRequest(ctx);
    if rc.Some? && Trim(rc.value.actorUserId) != "" then Some(rc.value.actorUserId) else FirstOf([ctx.resolvedUser])
  }

  function ServiceIdOf(ctx: Context): Option<string> {
    var rc := GetRequest(ctx);
    if rc.Some? && Trim(rc.value.serviceId) != "" then Some(rc.value.serviceId) else None
  }

  function CorrelationIdOf(ctx: Context): Option<string> {
    var rc := GetRequest(ctx);
    if rc.Some? && Trim(rc.value.correlationId) != "" then Some(rc.value.correlationId) else None
  }

  predicate SuperAdminOf(ctx: Context) {
    GetRequest(ctx).Some? && GetRequest(ctx).value.isSuperAdmin
  }

  // ---------------------------------------------------------------------------------------------
  // Each update changes its own value and no other

  datatype Update =
    | SetTenant(id: string)
    | SetUser(id: string)
    | SetService(id: string)
    | SetCorrelation(id: string)
    | SetSuperAdmin(on: bool)

  function Updated(ctx: Context, u: Update): Context {
    match u
    case SetTenant(id) => WithTenantId(ctx, id)
    case SetUser(id) => WithUserId(ctx, id)
    case SetService(id) => WithServiceId(ctx, id)
    case SetCorrelation(id) => WithCorrelationId(ctx, id)
    case SetSuperAdmin(on) => WithSuperAdmin(ctx, on)
  }

  /** What a reader finds in a context. */
  datatype View = View(tenant: Option<string>, user: Option<string>, service: Option<string>,
      correlation: Option<string>, superAdmin: bool)

  function ViewOf(ctx: Context): View {
    View(TenantIdOf(ctx), UserIdOf(ctx), ServiceIdOf(ctx), CorrelationIdOf(ctx), SuperAdminOf(ctx))
  }

  /** The trimmed value if there is one, else what was there. */
  function Replaced(before: Option<string>, id: string): Option<string> {
    if Trim(id) == "" then before else Some(Trim(id))
  }

  /** The request contract as readers see it: normalised, and blank if there is none. */
  function Seen(ctx: Context): RequestContext {
    if GetRequest(ctx).Some? then GetRequest(ctx).value else NO_REQUEST
  }

  lemma SeenIsTrimmed(ctx: Context)
    ensures Normalize(Seen(ctx)) == Seen(ctx)
  {
  }

  lemma PutReads(ctx: Context, rc: RequestContext)
    requires Normalize(rc) == rc && (rc != NO_REQUEST || GetRequest(ctx).None?)
    ensures Seen(PutRequest(ctx, rc)) == rc && PutRequest(ctx, rc) == ctx.(request := PutRequest(ctx, rc).request)
  {
    hide Trim;
  }

  lemma FallbacksTrimmed(rc: RequestContext, other: RequestContext)
    ensures Normalize(WithFallbacks(rc, other)) == WithFallbacks(rc, other)
    ensures Normalize(rc) == rc && rc != NO_REQUEST ==> WithFallbacks(rc, other) != NO_REQUEST
  {
    hide Trim;
  }

  lemma MergeReads(ctx: Context, rc: RequestContext)
    requires Normalize(rc) == rc && rc != NO_REQUEST
    ensures Seen(MergeRequest(ctx, rc)) == WithFallbacks(rc, Seen(ctx))
    ensures MergeRequest(ctx, rc) == ctx.(request := MergeRequest(ctx, rc).request)
  {
    hide Trim, WithFallbacks, PutRequest, GetRequest;
    FallbacksTrimmed(rc, Seen(ctx));
    if GetRequest(ctx).Some? {
      PutReads(ctx, WithFallbacks(rc, Seen(ctx)));
    } else {
      PutReads(ctx, rc);
      NoFallback(rc);
    }
  }

  lemma NoFallback(rc: RequestContext)
    requires Normalize(rc) == rc
    ensures WithFallbacks(rc, NO_REQUEST) == rc
  {
    hide Trim;
    NothingIsTrimmed();
  }

  /** Views in terms of what is seen. */
  lemma Views(ctx: Context)
    ensures var seen := Seen(ctx);
            ViewOf(ctx) == View(
              if seen.tenantId != "" then Some(seen.tenantId) else FirstOf([ctx.resolvedTenant, ctx.tenant]),
              if seen.actorUserId != "" then Some(seen.actorUserId) else FirstOf([ctx.resolvedUser]),
              if seen.serviceId != "" then Some(seen.serviceId) else None,
              if seen.correlationId != "" then Some(seen.correlationId) else None,
              seen.isSuperAdmin)
  {
    hide Trim, FirstOf, IsEmpty;
    SeenIsTrimmed(ctx);
  }

  function Expected(before: View, u: Update): View {
    match u
    case SetTenant(id) => before.(tenant := Replaced(before.tenant, id))
    case SetUser(id) => before.(user := Replaced(before.user, id))
    case SetService(id) => before.(service := Replaced(before.service, id))
    case SetCorrelation(id) => before.(correlation := Replaced(before.correlation, id))
    case SetSuperAdmin(on) => before.(superAdmin := before.superAdmin || on)
  }

  /** An update replaces the one value it names, by the trimmed text if that is not blank, and leaves the others; the
      super-admin mark can be set but not cleared. */
  lemma UpdateChangesItsOwn(ctx: Context, u: Update)
    ensures ViewOf(Updated(ctx, u)) == Expected(ViewOf(ctx), u)
  {
    hide Trim, FirstOf, IsEmpty, GetRequest, Seen, ViewOf, MergeRequest, PutRequest;
    Views(ctx);
    Views(Updated(ctx, u));
    SeenIsTrimmed(ctx);
    match u
    case SetTenant(id) =>
      if Trim(id) != "" {
        MergeReads(ctx, NO_REQUEST.(tenantId := Trim(id)));
        KeysApart(MergeRequest(ctx, NO_REQUEST.(tenantId := Trim(id))), Updated(ctx, u));
      }
    case SetUser(id) =>
      if Trim(id) != "" {
        MergeReads(ctx, NO_REQUEST.(actorUserId := Trim(id)));
        KeysApart(MergeRequest(ctx, NO_REQUEST.(actorUserId := Trim(id))), Updated(ctx, u));
      }
    case SetService(id) =>
      if Trim(id) != "" {
        MergeReads(ctx, NO_REQUEST.(serviceId := Trim(id)));
      }
    case SetCorrelation(id) =>
      if Trim(id) != "" {
        MergeReads(ctx, NO_REQUEST.(correlationId := Trim(id)));
      }
    case SetSuperAdmin(on) =>
      SuperAdminReads(ctx, on);
  }

  lemma KeysApart(ctx: Context, other: Context)
    requires ctx.request == other.request
    ensures Seen(ctx) == Seen(other)
  {
  }

  lemma SuperAdminReads(ctx: Context, on: bool)
    ensures Seen(WithSuperAdmin(ctx, on)) == Seen(ctx).(isSuperAdmin := Seen(ctx).isSuperAdmin || on)
    ensures WithSuperAdmin(ctx, on) == ctx.(request := WithSuperAdmin(ctx, on).request)
  {
    hide Trim;
    SeenIsTrimmed(ctx);
    if GetRequest(ctx).Some? {
      PutReads(ctx, Seen(ctx).(isSuperAdmin := Seen(ctx).isSuperAdmin || on));
    } else if on {
      PutReads(ctx, NO_REQUEST.(isSuperAdmin := true));
    }
  }

  // ---------------------------------------------------------------------------------------------
  // Resolving the scope of a request

  datatype Config = Config(
    requireTenant: bool, allowServiceTokens: bool, allowPlatformUsers: bool, enforceTenantStatus: bool,
    enforceMembershipStatus: bool,
    tenantPathParam: string, tenantQueryParam: string, userPathParam: string, userQueryParam: string,
    blockedTenantStatuses: seq<string>, blockedMemberStatuses: seq<string>)

  function StrPtr(value: string): Option<string> {
    if Trim(value) == "" then None else Some(Trim(value))
  }

  function PtrString(value: Option<string>): string {
    if value.Some? then Trim(value.value) else ""
  }

  function Lookup(values: map<string, string>, key: string): string {
    if key in values then values[key] else ""
  }

  /** The scope the request's path or query names; the path goes first. */
  function RequestedScope(
    path: map<string, string>, query: map<string, string>, pathParam: string, queryParam: string): Option<string>
  {
    var inPath := Trim(Lookup(path, Trim(pathParam)));
    var inQuery := Trim(Lookup(query, Trim(queryParam)));
    if Trim(pathParam) != "" && inPath != "" then Some(inPath)
    else if Trim(queryParam) != "" && inQuery != "" then Some(inQuery)
    else None
  }

  datatype Merged = Conflict | Agreed(value: string)

  function MergeScope(explicit: Option<string>, inferred: Option<string>): Merged {
    var a, b := PtrString(explicit), PtrString(inferred);
    if a != "" && b != "" && a != b then Conflict else if a != "" then Agreed(a) else Agreed(b)
  }

  /** The value the request gives for a parameter, trimmed; blank if the parameter is not configured or not given. */
  ghost predicate Given(values: map<string, string>, param: string, value: string) {
    value == if Trim(param) != "" && Trim(param) in values then Trim(values[Trim(param)]) else ""
  }

  /** The scope that counts: explicit before inferred, and of the inferred ones the path before the query; two nonblank
      ones that differ, explicit and inferred, conflict. */
  lemma ScopeOrder(
    explicit: Option<string>, path: map<string, string>, query: map<string, string>, pathParam: string,
        queryParam: string,
    said: string, inPath: string, inQuery: string)
    requires said == (if explicit.Some? then Trim(explicit.value) else "")
    requires Given(path, pathParam, inPath) && Given(query, queryParam, inQuery)
    ensures var inferred := if inPath != "" then inPath else inQuery;
            MergeScope(explicit, RequestedScope(path, query, pathParam, queryParam)) ==
            if said != "" && inferred != "" && said != inferred then Conflict
            else Agreed(if said != "" then said else inferred)
  {
    hide Trim;
    NothingIsTrimmed();
  }

  ghost predicate Blocked(status: string, statuses: seq<string>) {
    && Trim(ToLower(status)) != ""
    && exists i :: 0 <= i < |statuses| && Trim(ToLower(statuses[i])) == Trim(ToLower(status))
  }

  method IsBlocked(status: string, statuses: seq<string>) returns (blocked: bool)
    ensures blocked <==> Blocked(status, statuses)
  {
    hide Trim, ToLower;
    var wanted := Trim(ToLower(status));
    if wanted == "" {
      return false;
    }
    for i := 0 to |statuses|
      invariant forall j :: 0 <= j < i ==> Trim(ToLower(statuses[j])) != wanted
    {
      if wanted == Trim(ToLower(statuses[i])) {
        return true;
      }
    }
    return false;
  }

  /** A claim that is there decides; what was asked for may only repeat it. */
  predicate Compatible(claim: string, asked: string) {
    claim == "" || asked == "" || asked == claim
  }

  function Decided(claim: string, asked: string): string {
    if claim != "" then claim else asked
  }

  /** Who may act in which scope. */
  ghost predicate Admits(claims: Claims, tenant: string, user: string, cfg: Config) {
    if IsServiceToken(claims) then cfg.allowServiceTokens && (cfg.requireTenant ==> tenant != "")
    else
      && (ClaimTenant(claims) != "" && cfg.enforceTenantStatus ==>
            !Blocked(ClaimString(claims, "tenant_status"), cfg.blockedTenantStatuses))
      && (ClaimTenant(claims) != "" && cfg.enforceMembershipStatus ==>
            !Blocked(ClaimString(claims, "tenant_membership_status"), cfg.blockedMemberStatuses))
      && Compatible(ClaimTenant(claims), tenant)
      && (cfg.requireTenant ==> Decided(ClaimTenant(claims), tenant) != "")
      && (cfg.allowPlatformUsers || ClaimTenant(claims) != "" || (tenant != "" && !cfg.requireTenant))
      && Compatible(ClaimUser(claims), user)
  }

  /** The context a request goes on with. */
  function ScopedContext(ctx: Context, tenant: Option<string>, user: Option<string>): Context {
    WithUserId(WithTenantId(ctx, PtrString(tenant)), PtrString(user))
  }

  lemma MergedTrimmed(explicit: Option<string>, inferred: Option<string>)
    ensures MergeScope(explicit, inferred).Agreed? ==> Trimmed(MergeScope(explicit, inferred).value)
  {
    hide Trim, Trimmed;
    NothingIsTrimmed();
  }

  lemma ClaimsTrimmed(claims: Claims)
    ensures Trimmed(ClaimTenant(claims)) && Trimmed(ClaimUser(claims))
  {
    hide Trim, Trimmed;
    NothingIsTrimmed();
  }

  /** A blank scope leaves the context as it is. */
  lemma NoScope(ctx: Context)
    ensures WithTenantId(ctx, "") == ctx && WithUserId(ctx, "") == ctx
  {
    hide Trim, MergeRequest;
    NothingIsTrimmed();
  }

  /** The checks in the order the source makes them; the first that fails names the error. */
  method Refusal(claims: Claims, tenant: string, user: string, cfg: Config) returns (error: Option<string>)
    requires Trimmed(tenant) && Trimmed(user)
    ensures error.None? <==> Admits(claims, tenant, user, cfg)
  {
    hide Trim, Trimmed, IsServiceToken, Blocked, ClaimString, ToLower, ClaimTenant, ClaimUser;
    if IsServiceToken(claims) {
      if !cfg.allowServiceTokens {
        return Some("service_token_not_allowed");
      }
      if cfg.requireTenant && Trim(tenant) == "" {
        return Some("tenant_scope_required");
      }
      return None;
    }
    ClaimsTrimmed(claims);
    var claimTenant := Trim(ClaimTenant(claims));
    if claimTenant != "" {
      var blocked := IsBlocked(ClaimString(claims, "tenant_status"), cfg.blockedTenantStatuses);
      if cfg.enforceTenantStatus && blocked {
        return Some("tenant_inactive");
      }
      blocked := IsBlocked(ClaimString(claims, "tenant_membership_status"), cfg.blockedMemberStatuses);
      if cfg.enforceMembershipStatus && blocked {
        return Some("tenant_membership_inactive");
      }
    }
    var decided := tenant;
    if claimTenant != "" {
      if tenant != "" && tenant != claimTenant {
        return Some("tenant_scope_mismatch");
      }
      decided := claimTenant;
    } else if !cfg.allowPlatformUsers && (cfg.requireTenant || tenant == "") {
      return Some("tenant_scope_required");
    }
    if cfg.requireTenant && decided == "" {
      return Some("tenant_scope_required");
    }
    var claimUser := Trim(ClaimUser(claims));
    if claimUser != "" && user != "" && user != claimUser {
      return Some("user_scope_mismatch");
    }
    return None;
  }

  datatype Abort = Abort(status: int, error: string)

  class Gin {
    const path: map<string, string>
    const query: map<string, string>
    var claims: Option<Claims>
    var resolvedTenant: Option<string>
    var resolvedUser: Option<string>
    var request: Option<Context>
    var aborted: Option<Abort>

    constructor (path: map<string, string>, query: map<string, string>, claims: Option<Claims>,
        request: Option<Context>)
      ensures this.path == path && this.query == query && this.claims == claims && this.request == request
      ensures resolvedTenant == None && resolvedUser == None && aborted == None
    {
      this.path, this.query, this.claims, this.request := path, query, claims, request;
      resolvedTenant, resolvedUser, aborted := None, None, None;
    }

    function Caller(): Option<Claims>
      reads this
    {
      if claims.Some? then claims else if request.Some? then request.value.claims else None
    }

    method SetTenantId(tenantId: string)
      modifies this`resolvedTenant, this`request
      ensures resolvedTenant == Replaced(old(resolvedTenant), tenantId)
      ensures request == if old(request).Some? then Some(WithTenantId(old(request).value, tenantId)) else None
    {
      hide Trim, MergeRequest, NO_REQUEST;
      var scoped := Trim(tenantId);
      if scoped == "" {
        return;
      }
      resolvedTenant := Some(scoped);
      if request.Some? {
        request := Some(WithTenantId(request.value, scoped));
      }
    }

    method SetUserId(userId: string)
      modifies this`resolvedUser, this`request
      ensures resolvedUser == Replaced(old(resolvedUser), userId)
      ensures request == if old(request).Some? then Some(WithUserId(old(request).value, userId)) else None
    {
      hide Trim, MergeRequest, NO_REQUEST;
      var scoped := Trim(userId);
      if scoped == "" {
        return;
      }
      resolvedUser := Some(scoped);
      if request.Some? {
        request := Some(WithUserId(request.value, scoped));
      }
    }

    /** Sets what is given of a scope. */
    method Enter(tenantId: string, userId: string)
      requires Trimmed(tenantId) && Trimmed(userId)
      modifies this`resolvedTenant, this`resolvedUser, this`request
      ensures resolvedTenant == Replaced(old(resolvedTenant), tenantId)
                && resolvedUser == Replaced(old(resolvedUser), userId)
      ensures request ==
              if old(request).Some? then Some(ScopedContext(old(request).value, StrPtr(tenantId), StrPtr(userId)))
              else None
    {
      hide Trim, WithTenantId, WithUserId, Trimmed;
      NothingIsTrimmed();
      if request.Some? {
        NoScope(request.value);
        NoScope(WithTenantId(request.value, tenantId));
      }
      if tenantId != "" {
        SetTenantId(tenantId);
      }
      if userId != "" {
        SetUserId(userId);
      }
    }

    /** The request is let through exactly if its caller is known, the explicit and the inferred scopes agree and the
        caller is admitted; then the scope is the claims' where they have one, and the request's context carries it. A
        refused request's scope and context stay as they were. */
    method ResolveTenantUserScope(tenantId: Option<string>, userId: Option<string>, cfg: Config)
      returns (tenant: Option<string>, user: Option<string>, ok: bool)
      requires claims.Some? || request.Some?
      modifies this`resolvedTenant, this`resolvedUser, this`request, this`aborted
      ensures var inferredTenant := RequestedScope(path, query, cfg.tenantPathParam, cfg.tenantQueryParam);
              var askedTenant := MergeScope(tenantId, inferredTenant);
              var askedUser := MergeScope(userId, RequestedScope(path, query, cfg.userPathParam, cfg.userQueryParam));
              var caller := old(Caller());
              var scopedUser := if caller.Some? && IsServiceToken(caller.value) then None else user;
              && (ok <==> caller.Some? && askedTenant.Agreed? && askedUser.Agreed?
                          && Admits(caller.value, askedTenant.value, askedUser.value, cfg))
              && (ok && IsServiceToken(caller.value) ==>
                    tenant == StrPtr(askedTenant.value) && user == StrPtr(askedUser.value))
              && (ok && !IsServiceToken(caller.value) ==>
                    && tenant == StrPtr(Decided(ClaimTenant(caller.value), askedTenant.value))
                    && user == StrPtr(Decided(ClaimUser(caller.value), askedUser.value)))
              && (ok ==> && resolvedTenant == Replaced(old(resolvedTenant), PtrString(tenant))
                         && resolvedUser == Replaced(old(resolvedUser), PtrString(scopedUser)))
              && (ok && old(request).Some? ==>
                    request == Some(ScopedContext(old(request).value, tenant, scopedUser)))
              && (!ok ==> aborted.Some? && aborted.value.status ==
                            if caller.None? then 401
                            else if askedTenant.Conflict? || askedUser.Conflict? then 400 else 403)
      ensures !ok ==>
                request == old(request) && resolvedTenant == old(resolvedTenant) && resolvedUser == old(resolvedUser)
      ensures ok ==> aborted == old(aborted)
    {
      hide Trim, ScopedContext, Trimmed, RequestedScope, MergeScope, IsServiceToken, Admits, ClaimTenant, ClaimUser;
      NothingIsTrimmed();
      MergedTrimmed(tenantId, RequestedScope(path, query, cfg.tenantPathParam, cfg.tenantQueryParam));
      MergedTrimmed(userId, RequestedScope(path, query, cfg.userPathParam, cfg.userQueryParam));
      var caller := claims;
      if caller.None? {
        caller := request.value.claims;
      }
      if caller.None? {
        aborted := Some(Abort(401, "unauthorized"));
        return None, None, false;
      }
      var who := caller.value;
      ClaimsTrimmed(who);
      var askedTenant := MergeScope(tenantId, RequestedScope(path, query, cfg.tenantPathParam, cfg.tenantQueryParam));
      if askedTenant.Conflict? {
        aborted := Some(Abort(400, "tenant_scope_conflict"));
        return None, None, false;
      }
      var askedUser := MergeScope(userId, RequestedScope(path, query, cfg.userPathParam, cfg.userQueryParam));
      if askedUser.Conflict? {
        aborted := Some(Abort(400, "user_scope_conflict"));
        return None, None, false;
      }
      var refusal := Refusal(who, askedTenant.value, askedUser.value, cfg);
      if refusal.Some? {
        aborted := Some(Abort(403, refusal.value));
        return None, None, false;
      }
      if IsServiceToken(who) {
        Enter(askedTenant.value, "");
        return StrPtr(askedTenant.value), StrPtr(askedUser.value), true;
      }
      var decidedTenant, decidedUser := Decided(ClaimTenant(who), askedTenant.value),
          Decided(ClaimUser(who), askedUser.value);
      Enter(decidedTenant, decidedUser);
      return StrPtr(decidedTenant), StrPtr(decidedUser), true;
    }
  }

  // ---------------------------------------------------------------------------------------------
  // From the claims to the database

  /** The tenant the database layer takes from a context: the scope it carries, else the claims' of a caller that is
      no service. */
  function DatabaseTenant(ctx: Context): string {
    match TenantIdOf(ctx)
    case Some(id) => Trim(id)
    case None =>
      if ctx.claims.Some? && !IsServiceToken(ctx.claims.value) then Trim(ClaimTenant(ctx.claims.value)) else ""
  }

  /** A text that says something. */
  ghost predicate Says(value: Option<string>) {
    value.Some? && Trim(value.value) != ""
  }

  /** Where the database layer looks for the tenant: the request contract, the key `resolved_tenant_id`, the key
      `tenant_id`, and the claims of a caller that is no service, in this order. */
  lemma DatabaseTenantOrder(ctx: Context)
    ensures var inRequest := if ctx.request.Some? then Some(ctx.request.value.tenantId) else None;
            DatabaseTenant(ctx) ==
            if Says(inRequest) then Trim(inRequest.value)
            else if Says(ctx.resolvedTenant) then Trim(ctx.resolvedTenant.value)
            else if Says(ctx.tenant) then Trim(ctx.tenant.value)
            else if ctx.claims.Some? && !IsServiceToken(ctx.claims.value) then ClaimTenant(ctx.claims.value)
            else ""
  {
    hide Trim, IsServiceToken, ClaimTenant;
    if ctx.claims.Some? {
      ClaimsTrimmed(ctx.claims.value);
    }
    hide FirstOf, GetRequest;
    FirstOfTwo(ctx.resolvedTenant, ctx.tenant);
    SeenTenant(ctx);
  }

  lemma FirstOfTwo(a: Option<string>, b: Option<string>)
    ensures FirstOf([a, b]) ==
            if Says(a) then Some(Trim(a.value)) else if Says(b) then Some(Trim(b.value)) else None
  {
    hide Trim;
    var both := [a, b];
    assert both[1..] == [b] && [b][1..] == [];
    assert FirstOf([]) == None;
    assert FirstOf([b]) == if Says(b) then Some(Trim(b.value)) else None;
  }

  lemma SeenTenant(ctx: Context)
    ensures GetRequest(ctx).Some? ==> GetRequest(ctx).value.tenantId == Trim(ctx.request.value.tenantId)
    ensures ctx.request.Some? && Trim(ctx.request.value.tenantId) != "" ==> GetRequest(ctx).Some?
  {
    hide Trim;
  }

  function RunUpdates(ctx: Context, updates: seq<Update>): Context {
    if updates == [] then ctx else Updated(RunUpdates(ctx, updates[..|updates| - 1]), updates[|updates| - 1])
  }

  /** No update but the tenant's own changes the tenant of a context. */
  lemma {:induction false} TenantStays(ctx: Context, updates: seq<Update>)
    requires forall i :: 0 <= i < |updates| ==> !updates[i].SetTenant?
    ensures TenantIdOf(RunUpdates(ctx, updates)) == TenantIdOf(ctx)
    decreases |updates|
  {
    hide Updated, TenantIdOf, UserIdOf, ServiceIdOf, CorrelationIdOf, SuperAdminOf;
    if updates != [] {
      var before := updates[..|updates| - 1];
      TenantStays(ctx, before);
      UpdateChangesItsOwn(RunUpdates(ctx, before), updates[|updates| - 1]);
    }
  }

  lemma ScopedTenant(ctx: Context, tenant: string, user: Option<string>)
    requires Trimmed(tenant) && tenant != ""
    ensures TenantIdOf(ScopedContext(ctx, Some(tenant), user)) == Some(tenant)
  {
    hide TenantIdOf, UserIdOf, ServiceIdOf, CorrelationIdOf, SuperAdminOf, WithTenantId, WithUserId, Trim;
    UpdateChangesItsOwn(ctx, SetTenant(tenant));
    UpdateChangesItsOwn(WithTenantId(ctx, tenant), SetUser(PtrString(user)));
  }

  /** End to end: for a caller that is no service and whose claims name a tenant, a request that was let through keeps
      that tenant under all later updates of its user, service, correlation or super-admin values; every statement
      whose place is right then reaches the database with a tenant clause that reads as exactly that tenant, and so
      does the statement that opens a transaction. The method `Gin.ResolveTenantUserScope` establishes the context
      this starts from. */
  lemma ClaimReachesDatabase(claims: Claims, askedTenant: string, ctx: Context, user: Option<string>,
      updates: seq<Update>, query: string)
    requires !IsServiceToken(claims) && ClaimTenant(claims) != ""
    requires forall i :: 0 <= i < |updates| ==> !updates[i].SetTenant?
    ensures var tenant := ClaimTenant(claims);
            var later := RunUpdates(ScopedContext(ctx, StrPtr(Decided(tenant, askedTenant)), user), updates);
            && DatabaseTenant(later) == tenant
            && TenantSql.Lex(TenantSql.TenantStatement(DatabaseTenant(later)))
               == [TenantSql.Word("select")] + TenantSql.CallTokens(tenant)
            && (TenantSqlExact.RightPlace(query) ==>
                  TenantSql.Lex(TenantSql.Inject(query, DatabaseTenant(later))) ==
                      TenantSql.Scoped(TenantSql.Lex(query), tenant))
  {
    hide TenantIdOf, ScopedContext, RunUpdates, Trim, Trimmed, ClaimTenant;
    hide TenantSql.Lex, TenantSql.Inject, TenantSql.Scoped, TenantSqlExact.RightPlace, TenantSql.TenantStatement,
         TenantSql.CallTokens;
    var tenant := ClaimTenant(claims);
    ClaimsTrimmed(claims);
    ScopedTenant(ctx, tenant, user);
    var start := ScopedContext(ctx, Some(tenant), user);
    TenantStays(start, updates);
    TenantSql.StatementReads(tenant);
    if TenantSqlExact.RightPlace(query) {
      TenantSqlExact.RightPlaceScopes(query, tenant);
    }
  }

  /** A whole request: its scope is resolved, later code updates its context, and the database layer opens a
      transaction and runs a statement. For a tenant claim of a user token both texts carry exactly that tenant. */
  method Serve(c: Gin, tenantId: Option<string>, userId: Option<string>, cfg: Config, updates: seq<Update>,
      query: string)
    returns (ok: bool, opening: string, statement: string)
    requires c.request.Some?
    requires forall i :: 0 <= i < |updates| ==> !updates[i].SetTenant?
    modifies c
    ensures ok ==> old(c.Caller()).Some?
    ensures var caller := old(c.Caller());
            ok && !IsServiceToken(caller.value) && ClaimTenant(caller.value) != "" ==>
              var tenant := ClaimTenant(caller.value);
              && TenantSql.Lex(opening) == [TenantSql.Word("select")] + TenantSql.CallTokens(tenant)
              && (TenantSqlExact.RightPlace(query) ==>
                    TenantSql.Lex(statement) == TenantSql.Scoped(TenantSql.Lex(query), tenant))
  {
    hide RunUpdates, DatabaseTenant, IsServiceToken, ClaimTenant, ScopedContext, Admits, RequestedScope, Trim;
    hide TenantSql.Lex, TenantSql.Inject, TenantSql.Scoped, TenantSqlExact.RightPlace, TenantSql.TenantStatement,
         TenantSql.CallTokens;
    opening, statement := "", "";
    ghost var caller, ctx := c.Caller(), c.request.value;
    ghost var asked := MergeScope(tenantId, RequestedScope(c.path, c.query, cfg.tenantPathParam, cfg.tenantQueryParam));
    var tenant, user;
    tenant, user, ok := c.ResolveTenantUserScope(tenantId, userId, cfg);
    if ok {
      var later := RunUpdates(c.request.value, updates);
      opening := TenantSql.TenantStatement(DatabaseTenant(later));
      statement := TenantSql.Inject(query, DatabaseTenant(later));
      if !IsServiceToken(caller.value) && ClaimTenant(caller.value) != "" {
        ClaimReachesDatabase(caller.value, asked.value, ctx, user, updates, query);
      }
    }
  }
}

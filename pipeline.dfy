/**
 * The two filters in their configured order (the internal gate is added
 * before `SecurityFilter`), followed by the guards of `SecurityAspect` on a
 * protected operation, and the end-to-end scenarios of the starter.
 */
module Pipeline {
  import opened Wrappers
  import opened JavaLang
  import opened Scopes
  import opened Context
  import opened Servlet
  import opened InternalChecking
  import opened SecurityFilter
  import SecurityAspect

  /** How one request ends up. */
  datatype Served =
    | Denied(status: int, body: string) // refused by the internal gate
    | Dropped                           // the gate neither denied nor forwarded
    | Crashed(error: FilterError)       // `SecurityFilter` threw
    | Dispatched(context: RequestContext) // reached the application with this context bound

  /** What `SecurityFilter` does with a request the gate has passed on: it
      never answers or drops the request itself; what reaches the
      application is a well-formed context that is internal exactly on an
      internal path, and an internal path never throws. */
  function Downstream(request: Request, lookup: string -> Scope): (r: Served)
    ensures r.Dispatched? || r.Crashed?
    ensures r.Dispatched? ==> WellFormed(r.context)
    ensures r.Dispatched? ==> (r.context.isInternal <==> StartsWith(request.uri, InternalPrefix))
    ensures StartsWith(request.uri, InternalPrefix) ==> r.Dispatched? && r.context.traceId == Header(request, "X-TraceId")
  {
    if StartsWith(request.uri, InternalPrefix) then
      ExtractInternal(request, lookup);
      Dispatched(ExtractWith(request, lookup).value)
    else
      ExtractPublic(request, lookup);
      match ExtractWith(request, lookup)
      case Failure(e) => Crashed(e)
      case Success(c) => ExtractWellFormed(request, lookup); Dispatched(c)
  }

  /** The gate's decision followed by `SecurityFilter`: only the gate
      answers or drops a request, and it answers with 403; whatever is
      forwarded is handled by the filter alone. */
  function ServeWith(action: Action, request: Request, lookup: string -> Scope): (r: Served)
    ensures r.Denied? <==> action == Deny
    ensures r.Denied? ==> r.status == SC_FORBIDDEN
    ensures r.Dropped? <==> action == NoAction
    ensures r.Dispatched? || r.Crashed? <==> action == Forward
  {
    match action
    case Deny => Denied(SC_FORBIDDEN, "Forbidden")
    case NoAction => Dropped
    case Forward => Downstream(request, lookup)
  }

  /** The stack as written. Only internal paths get past the gate, so
      `SecurityFilter` only ever sees internal requests: they are denied
      without the right secret, dispatched with an internal context with it,
      and nothing ever crashes. */
  function Serve(request: Request, secret: string): (r: Served)
    ensures r == Dropped <==> !StartsWith(request.uri, InternalPrefix)
    ensures r.Denied? <==>
              StartsWith(request.uri, InternalPrefix) && Header(request, "X-Internal-Secret") != Some(secret)
    ensures r.Denied? ==> r == Denied(403, "Forbidden")
    ensures r.Dispatched? <==>
              StartsWith(request.uri, InternalPrefix) && Header(request, "X-Internal-Secret") == Some(secret)
    ensures r.Dispatched? ==> r.context == Fresh.(isInternal := true, traceId := Header(request, "X-TraceId"))
    ensures !r.Crashed?
  {
    if StartsWith(request.uri, InternalPrefix) then ExtractInternal(request, ParseScope); ServeWith(Decide(request, secret), request, ParseScope)
    else ServeWith(Decide(request, secret), request, ParseScope)
  }

  /** The stack as evidently intended: every request the gate does not deny
      reaches `SecurityFilter`, and scope tokens are read ignoring case. */
  function IntendedServe(request: Request, secret: string): (r: Served)
    ensures r != Dropped
    ensures r.Denied? <==>
              StartsWith(request.uri, InternalPrefix) && Header(request, "X-Internal-Secret") != Some(secret)
    ensures r.Denied? ==> r == Denied(403, "Forbidden")
    ensures !r.Denied? ==> r == Downstream(request, IntendedParseScope)
  {
    ServeWith(IntendedDecide(request, secret), request, IntendedParseScope)
  }

  /** The objects wired together: a fresh response and chain for the gate,
      and when the gate invokes its chain, `SecurityFilter` on a fresh chain
      standing for the application. The outcome is exactly `Serve`. */
  method Handle(request: Request, secret: string) returns (served: Served)
    ensures served == Serve(request, secret)
  {
    var gate := new InternalCheckingFilter(secret);
    var response := new Response();
    var gateChain := new FilterChain();
    gate.DoFilterInternal(request, response, gateChain);
    if gateChain.calls == [] {
      if response.status == SC_FORBIDDEN {
        served := Denied(response.status, response.body);
      } else {
        served := Dropped;
      }
      return;
    }
    var application := new FilterChain();
    var completion := SecurityFilter.DoFilterInternal(request, application);
    match completion
    case Threw(e) =>
      served := Crashed(e);
    case Normal =>
      served := Dispatched(application.calls[0].value);
  }

  // ---------------------------------------------------------------------
  // Where the gate and the filter meet the guards
  // ---------------------------------------------------------------------

  /** No combination of headers makes a context internal: under the intended
      stack a dispatched context is internal exactly when the path has the
      internal prefix and the secret matches. */
  lemma InternalFlagNeedsSecret(request: Request, secret: string)
    ensures IntendedServe(request, secret).Dispatched? && IntendedServe(request, secret).context.isInternal <==>
              StartsWith(request.uri, InternalPrefix) && Header(request, "X-Internal-Secret") == Some(secret)
  {
    if StartsWith(request.uri, InternalPrefix) {
      ExtractInternal(request, IntendedParseScope);
    } else {
      ExtractPublic(request, IntendedParseScope);
    }
  }

  /** `@InternalOnly` lets an operation run exactly for internal paths that
      carry the secret, under both stacks. */
  lemma InternalOnlyNeedsSecret<T>(request: Request, secret: string, op: SecurityAspect.Invocation<T>)
    ensures Serve(request, secret).Dispatched? &&
            SecurityAspect.Ran(SecurityAspect.CheckInternal(Some(Serve(request, secret).context), op)) <==>
              StartsWith(request.uri, InternalPrefix) && Header(request, "X-Internal-Secret") == Some(secret)
    ensures IntendedServe(request, secret).Dispatched? &&
            SecurityAspect.Ran(SecurityAspect.CheckInternal(Some(IntendedServe(request, secret).context), op)) <==>
              StartsWith(request.uri, InternalPrefix) && Header(request, "X-Internal-Secret") == Some(secret)
  {
    InternalFlagNeedsSecret(request, secret);
  }

  /** A context built for an internal path is unauthenticated, so it never
      passes `@RequireAuth` or `@HasAuthority`. */
  lemma InternalContextFailsIdentityGuards<T>(request: Request, lookup: string -> Scope,
                                              resource: string, action: string, scope: Scope,
                                              op: SecurityAspect.Invocation<T>)
    requires StartsWith(request.uri, InternalPrefix)
    ensures SecurityAspect.CheckAuth(Some(ExtractWith(request, lookup).value), op) ==
              Failure(SecurityAspect.Unauthorized)
    ensures SecurityAspect.CheckAuthorities(Some(ExtractWith(request, lookup).value), resource, action, scope, op) ==
              Failure(SecurityAspect.Unauthorized)
  {
    ExtractInternal(request, lookup);
  }

  /** The key the filter stores a token `action.resource.scope` under is
      the key the authority guard looks up for that action and resource. */
  lemma KeyFormatAgrees(action: string, resource: string, scopeToken: string, lookup: string -> Scope)
    requires '.' !in action && '.' !in resource && '.' !in scopeToken && scopeToken != ""
    ensures ParseAuthority(action + "." + resource + "." + scopeToken, lookup) ==
              Success((SecurityAspect.PermissionKey(action, resource), lookup(scopeToken).Value()))
  {
    var segments := [action, resource, scopeToken];
    assert Join([scopeToken], '.') == scopeToken;
    assert Join([resource, scopeToken], '.') == resource + "." + scopeToken by {
      assert [resource, scopeToken][1..] == [scopeToken];
    }
    assert Join(segments, '.') == action + "." + (resource + "." + scopeToken) by {
      assert segments[1..] == [resource, scopeToken];
    }
    assert action + "." + resource + "." + scopeToken == action + "." + (resource + "." + scopeToken);
    ParseWellFormedToken(segments, lookup);
  }

  /** Two tokens that parse give the map of their two entries, the second
      one written last. */
  lemma AuthoritiesOfTwo(t1: string, t2: string, lookup: string -> Scope)
    requires ParseAuthority(t1, lookup).Success? && ParseAuthority(t2, lookup).Success?
    ensures AuthoritiesOf([t1, t2], lookup) ==
              Success(map[][ParseAuthority(t1, lookup).value.0 := ParseAuthority(t1, lookup).value.1]
                           [ParseAuthority(t2, lookup).value.0 := ParseAuthority(t2, lookup).value.1])
  {
    assert [t1, t2][..1] == [t1];
    assert [t1][..0] == [];
    var e1 := ParseAuthority(t1, lookup).value;
    assert AuthoritiesOf([t1], lookup) == Success(map[][e1.0 := e1.1]);
  }

  // ---------------------------------------------------------------------
  // Scenarios
  // ---------------------------------------------------------------------

  const Secret: string := "s3cr3t"

  /** `/internal/sync` with the configured secret: an internal context, and
      `@InternalOnly` runs the operation. */
  lemma InternalSyncWithSecret<T>(op: SecurityAspect.Invocation<T>)
    ensures Serve(Request("/internal/sync", map["X-Internal-Secret" := Secret]), Secret) ==
              Dispatched(Fresh.(isInternal := true))
    ensures SecurityAspect.CheckInternal(Some(Fresh.(isInternal := true)), op) == SecurityAspect.Proceed(op)
  {
    assert StartsWith("/internal/sync", InternalPrefix);
  }

  /** `/internal/sync` without the secret header: 403, "Forbidden", and the
      chain is never invoked. */
  lemma InternalSyncWithoutSecret()
    ensures Serve(Request("/internal/sync", map[]), Secret) == Denied(403, "Forbidden")
    ensures IntendedServe(Request("/internal/sync", map[]), Secret) == Denied(403, "Forbidden")
  {
    assert StartsWith("/internal/sync", InternalPrefix);
  }

  /** The token granting `scope` for an action and a resource, the scope
      written as its constant's name in lower case (`read.order.own`). */
  function GrantToken(action: string, resource: string, scope: Scope): string
  {
    action + "." + resource + "." + ToLowerCase(scope.Name())
  }

  /** A lower-cased constant name is a non-empty run of lower-case letters,
      so it holds neither a dot nor a comma. */
  lemma LowerNameIsSegment(scope: Scope)
    ensures ToLowerCase(scope.Name()) != []
    ensures forall c :: c in ToLowerCase(scope.Name()) ==> IsLower(c)
  {
    var l := ToLowerCase(scope.Name());
    forall i | 0 <= i < |l|
      ensures IsLower(l[i])
    {
      assert IsUpper(scope.Name()[i]);
    }
  }

  /** The grant token is stored under the key the guard looks up for that
      action and resource, with the scope the given reading assigns. */
  lemma GrantTokenParses(action: string, resource: string, scope: Scope, lookup: string -> Scope)
    requires '.' !in action && '.' !in resource
    ensures ParseAuthority(GrantToken(action, resource, scope), lookup) ==
              Success((SecurityAspect.PermissionKey(action, resource), lookup(ToLowerCase(scope.Name())).Value()))
  {
    LowerNameIsSegment(scope);
    KeyFormatAgrees(action, resource, ToLowerCase(scope.Name()), lookup);
  }

  /** A grant token for comma-free names holds no comma. */
  lemma GrantTokenHasNoComma(action: string, resource: string, scope: Scope)
    requires ',' !in action && ',' !in resource
    ensures ',' !in GrantToken(action, resource, scope) && GrantToken(action, resource, scope) != ""
  {
    LowerNameIsSegment(scope);
  }

  /** The authorities header listing two grants, as the filter parses it. */
  lemma TwoGrantsAuthorities(a1: string, r1: string, s1: Scope, a2: string, r2: string, s2: Scope,
                             lookup: string -> Scope)
    requires '.' !in a1 && '.' !in r1 && '.' !in a2 && '.' !in r2
    requires ',' !in a1 && ',' !in r1 && ',' !in a2 && ',' !in r2
    ensures AuthoritiesOf(Split(Join([GrantToken(a1, r1, s1), GrantToken(a2, r2, s2)], ','), ','), lookup) ==
              Success(map[SecurityAspect.PermissionKey(a1, r1) := lookup(ToLowerCase(s1.Name())).Value(),
                          SecurityAspect.PermissionKey(a2, r2) := lookup(ToLowerCase(s2.Name())).Value()])
  {
    var tokens := [GrantToken(a1, r1, s1), GrantToken(a2, r2, s2)];
    GrantTokenHasNoComma(a1, r1, s1);
    GrantTokenHasNoComma(a2, r2, s2);
    SplitOfJoin(tokens, ',');
    GrantTokenParses(a1, r1, s1, lookup);
    GrantTokenParses(a2, r2, s2, lookup);
    AuthoritiesOfTwo(tokens[0], tokens[1], lookup);
  }

  /** A non-internal request whose `X-Authenticated` says "true" (ignoring
      case), whose `X-UserId` and `X-TenantId` parse as `long`s `userId` and
      `tenantId`, and whose `X-Authorities` lists `grants`. */
  predicate CarriesGrants(request: Request, userId: Long, tenantId: Long, grants: seq<string>)
  {
    && !StartsWith(request.uri, InternalPrefix) && |grants| >= 1
    && Header(request, "X-Authenticated").Some?
    && EqualsIgnoreCase(Header(request, "X-Authenticated").value, "true")
    && LongValueOf(Header(request, "X-UserId")) == Some(userId)
    && LongValueOf(Header(request, "X-TenantId")) == Some(tenantId)
    && Header(request, "X-Authorities") == Some(Join(grants, ','))
  }

  /** The context the filter builds from such a request when every grant
      parses: authenticated, the trace and device ids as sent, the ids, and
      the parsed grants. */
  lemma GrantsContext(request: Request, userId: Long, tenantId: Long, grants: seq<string>, lookup: string -> Scope)
    requires CarriesGrants(request, userId, tenantId, grants)
    requires AuthoritiesOf(Split(Join(grants, ','), ','), lookup).Success?
    ensures ExtractWith(request, lookup) ==
              Success(RequestContext(true, false, Header(request, "X-TraceId"), Some(userId), Some(tenantId),
                Header(request, "X-DeviceId"), Some(AuthoritiesOf(Split(Join(grants, ','), ','), lookup).value)))
  {
    ExtractAuthenticated(request, lookup);
    ExtractPublic(request, lookup);
  }

  /** Names usable in a grant token: no dot, no comma. */
  predicate Segment(name: string)
  {
    '.' !in name && ',' !in name
  }

  /** A request granting `s1` on `a1.r1` and `s2` on `a2.r2` (for instance
      `read.order.own,write.order.tenant`), as the code is written: it never
      gets past the gate; and had it reached `SecurityFilter`, both grants
      would be stored as NONE, so the first key satisfies a required scope
      only when that scope is NONE. */
  lemma TwoGrantsAsWritten<T>(request: Request, secret: string, userId: Long, tenantId: Long,
                              a1: string, r1: string, s1: Scope, a2: string, r2: string, s2: Scope,
                              scope: Scope, op: SecurityAspect.Invocation<T>)
    requires Segment(a1) && Segment(r1) && Segment(a2) && Segment(r2)
    requires SecurityAspect.PermissionKey(a1, r1) != SecurityAspect.PermissionKey(a2, r2)
    requires CarriesGrants(request, userId, tenantId, [GrantToken(a1, r1, s1), GrantToken(a2, r2, s2)])
    ensures Serve(request, secret) == Dropped
    ensures Extract(request) ==
              Success(RequestContext(true, false, Header(request, "X-TraceId"), Some(userId), Some(tenantId),
                Header(request, "X-DeviceId"),
                Some(map[SecurityAspect.PermissionKey(a1, r1) := 0, SecurityAspect.PermissionKey(a2, r2) := 0])))
    ensures var context := Extract(request).value;
      SecurityAspect.CheckAuthorities(Some(context), r1, a1, scope, op) ==
        if scope == NONE then SecurityAspect.Proceed(op) else Failure(SecurityAspect.Forbidden)
  {
    LowerCaseNameRoundTrip(s1);
    LowerCaseNameRoundTrip(s2);
    var grants := [GrantToken(a1, r1, s1), GrantToken(a2, r2, s2)];
    TwoGrantsAuthorities(a1, r1, s1, a2, r2, s2, ParseScope);
    GrantsContext(request, userId, tenantId, grants, ParseScope);
    SecurityAspect.GrantedScopeOnly(Extract(request).value, r1, a1, NONE, scope, op);
  }

  /** The same request under the intended stack: it is dispatched with
      authorities `{a1.r1: s1, a2.r2: s2}`. */
  lemma TwoGrantsIntended(request: Request, secret: string, userId: Long, tenantId: Long,
                          a1: string, r1: string, s1: Scope, a2: string, r2: string, s2: Scope)
    requires Segment(a1) && Segment(r1) && Segment(a2) && Segment(r2)
    requires CarriesGrants(request, userId, tenantId, [GrantToken(a1, r1, s1), GrantToken(a2, r2, s2)])
    ensures IntendedServe(request, secret) ==
              Dispatched(RequestContext(true, false, Header(request, "X-TraceId"), Some(userId), Some(tenantId),
                Header(request, "X-DeviceId"),
                Some(map[SecurityAspect.PermissionKey(a1, r1) := s1.Value(),
                         SecurityAspect.PermissionKey(a2, r2) := s2.Value()])))
  {
    LowerCaseNameRoundTrip(s1);
    LowerCaseNameRoundTrip(s2);
    var grants := [GrantToken(a1, r1, s1), GrantToken(a2, r2, s2)];
    TwoGrantsAuthorities(a1, r1, s1, a2, r2, s2, IntendedParseScope);
    GrantsContext(request, userId, tenantId, grants, IntendedParseScope);
  }

  /** ... and each key then satisfies exactly the scope it was granted: with
      `read.order.own,write.order.tenant`, reading orders with scope OWN
      runs the operation and with scope TENANT is forbidden. */
  lemma TwoGrantsIntendedGuard<T>(request: Request, secret: string, userId: Long, tenantId: Long,
                                  a1: string, r1: string, s1: Scope, a2: string, r2: string, s2: Scope,
                                  scope: Scope, op: SecurityAspect.Invocation<T>)
    requires Segment(a1) && Segment(r1) && Segment(a2) && Segment(r2)
    requires SecurityAspect.PermissionKey(a1, r1) != SecurityAspect.PermissionKey(a2, r2)
    requires CarriesGrants(request, userId, tenantId, [GrantToken(a1, r1, s1), GrantToken(a2, r2, s2)])
    ensures IntendedServe(request, secret).Dispatched?
    ensures var context := IntendedServe(request, secret).context;
      && SecurityAspect.CheckAuthorities(Some(context), r1, a1, scope, op) ==
           (if scope == s1 then SecurityAspect.Proceed(op) else Failure(SecurityAspect.Forbidden))
      && SecurityAspect.CheckAuthorities(Some(context), r2, a2, scope, op) ==
           (if scope == s2 then SecurityAspect.Proceed(op) else Failure(SecurityAspect.Forbidden))
  {
    TwoGrantsIntended(request, secret, userId, tenantId, a1, r1, s1, a2, r2, s2);
    var context := IntendedServe(request, secret).context;
    SecurityAspect.GrantedScopeOnly(context, r1, a1, s1, scope, op);
    SecurityAspect.GrantedScopeOnly(context, r2, a2, s2, scope, op);
  }

  /** A request that is not internal and does not say `true` (ignoring
      case) in `X-Authenticated` reaches the application unauthenticated
      under the intended stack, and then `@RequireAuth` and `@HasAuthority`
      both refuse it with Unauthorized (never Forbidden), whatever the
      required authority. */
  lemma UnauthenticatedFailsIdentityGuards<T>(request: Request, secret: string, resource: string, action: string,
                                              scope: Scope, op: SecurityAspect.Invocation<T>)
    requires !StartsWith(request.uri, InternalPrefix)
    requires Header(request, "X-Authenticated").Some?
    requires !EqualsIgnoreCase(Header(request, "X-Authenticated").value, "true")
    ensures IntendedServe(request, secret) ==
              Dispatched(Fresh.(traceId := Header(request, "X-TraceId"), deviceId := Header(request, "X-DeviceId")))
    ensures SecurityAspect.CheckAuth(Some(IntendedServe(request, secret).context), op) ==
              Failure(SecurityAspect.Unauthorized)
    ensures SecurityAspect.CheckAuthorities(Some(IntendedServe(request, secret).context), resource, action, scope, op) ==
              Failure(SecurityAspect.Unauthorized)
  {
    ExtractPublic(request, IntendedParseScope);
  }

  /** A scope segment that names no constant in any case is stored as NONE
      under either reading; the guard's exact match then lets it satisfy a
      required scope of NONE and nothing else. */
  lemma UnknownScopeIsNone<T>(action: string, resource: string, scopeToken: string, scope: Scope,
                              op: SecurityAspect.Invocation<T>)
    requires '.' !in action && '.' !in resource && '.' !in scopeToken && scopeToken != ""
    requires forall s: Scope :: !EqualsIgnoreCase(scopeToken, s.Name())
    ensures ParseAuthority(action + "." + resource + "." + scopeToken, ParseScope) ==
              Success((SecurityAspect.PermissionKey(action, resource), NONE.Value()))
    ensures ParseAuthority(action + "." + resource + "." + scopeToken, IntendedParseScope) ==
              Success((SecurityAspect.PermissionKey(action, resource), NONE.Value()))
    ensures var context := RequestContext(true, false, None, None, None, None,
                                          Some(map[SecurityAspect.PermissionKey(action, resource) := NONE.Value()]));
      SecurityAspect.CheckAuthorities(Some(context), resource, action, scope, op) ==
        if scope == NONE then SecurityAspect.Proceed(op) else Failure(SecurityAspect.Forbidden)
  {
    KeyFormatAgrees(action, resource, scopeToken, ParseScope);
    KeyFormatAgrees(action, resource, scopeToken, IntendedParseScope);
    IntendedParseScopeIgnoresCase(scopeToken, NONE);
    var context := RequestContext(true, false, None, None, None, None,
                                  Some(map[SecurityAspect.PermissionKey(action, resource) := NONE.Value()]));
    SecurityAspect.GrantedScopeOnly(context, resource, action, NONE, scope, op);
  }

  /** A request granting one token whose scope segment names no constant:
      both readings build the same context, storing NONE under the token's
      key, so on the context the filter actually forwards the authority
      guard lets the operation run for a required NONE and refuses every
      other scope with Forbidden. */
  lemma UnknownScopeInRequest<T>(request: Request, secret: string, userId: Long, tenantId: Long,
                                 action: string, resource: string, scopeToken: string, scope: Scope,
                                 op: SecurityAspect.Invocation<T>)
    requires Segment(action) && Segment(resource) && Segment(scopeToken) && scopeToken != ""
    requires forall s: Scope :: !EqualsIgnoreCase(scopeToken, s.Name())
    requires CarriesGrants(request, userId, tenantId, [action + "." + resource + "." + scopeToken])
    ensures Extract(request).Success? && IntendedServe(request, secret).Dispatched?
    ensures IntendedServe(request, secret).context == Extract(request).value
    ensures Extract(request).value.authorities == Some(map[SecurityAspect.PermissionKey(action, resource) := NONE.Value()])
    ensures SecurityAspect.CheckAuthorities(Some(Extract(request).value), resource, action, scope, op) ==
              if scope == NONE then SecurityAspect.Proceed(op) else Failure(SecurityAspect.Forbidden)
  {
    var token := action + "." + resource + "." + scopeToken;
    assert ',' !in token;
    SplitOfJoin([token], ',');
    KeyFormatAgrees(action, resource, scopeToken, ParseScope);
    KeyFormatAgrees(action, resource, scopeToken, IntendedParseScope);
    IntendedParseScopeIgnoresCase(scopeToken, NONE);
    var entry := (SecurityAspect.PermissionKey(action, resource), NONE.Value());
    assert [token][..0] == [];
    assert AuthoritiesOf([token], ParseScope) == Success(map[][entry.0 := entry.1]);
    assert AuthoritiesOf([token], IntendedParseScope) == Success(map[][entry.0 := entry.1]);
    GrantsContext(request, userId, tenantId, [token], ParseScope);
    GrantsContext(request, userId, tenantId, [token], IntendedParseScope);
    SecurityAspect.GrantedScopeOnly(Extract(request).value, resource, action, NONE, scope, op);
  }
}

/**
 * `SecurityAspect`: the three guards run around a protected operation. The
 * context bound to the request-context holder is passed in explicitly
 * (`None`: nothing bound), and the protected operation is given by how its
 * one run would end.
 */
module SecurityAspect {
  import opened Wrappers
  import opened JavaLang
  import opened Scopes
  import opened Context

  /** How the protected operation ends when it is run (`pjp.proceed()`). */
  datatype Invocation<T> = Returned(value: T) | Threw(cause: string)

  /** What an advice throws. */
  datatype AspectError =
    | ContextMissing         // `ScopedValue.get()` with nothing bound
    | NullPointer            // an authenticated context whose authorities are null
    | Unauthorized           // `UnauthorizeException`
    | Forbidden              // `ForbiddenException`
    | Wrapped(cause: string) // the operation's own failure, wrapped in a `RuntimeException`

  /** Running the operation: its result unchanged, or its failure wrapped. */
  function Proceed<T>(op: Invocation<T>): (r: Result<T, AspectError>)
    ensures r.Success? <==> op.Returned?
    ensures r.Success? ==> r.value == op.value
    ensures r.Failure? ==> r.error == Wrapped(op.cause)
  {
    match op
    case Returned(v) => Success(v)
    case Threw(cause) => Failure(Wrapped(cause))
  }

  /** The outcome shows the operation ran: it returned, or failed by itself. */
  predicate Ran<T>(r: Result<T, AspectError>)
  {
    r.Success? || r.error.Wrapped?
  }

  /** `checkAuthentication`. */
  function CheckAuthentication(context: RequestContext): (r: Outcome<AspectError>)
    ensures r == Pass <==> context.authenticated
    ensures r.Fail? ==> r.error == Unauthorized
  {
    if !context.authenticated then Fail(Unauthorized) else Pass
  }

  /** `checkAuth` (`@RequireAuth`): refuse an unauthenticated request with
      `Unauthorized`, otherwise run the operation and return its result. */
  function CheckAuth<T>(binding: Option<RequestContext>, op: Invocation<T>): (r: Result<T, AspectError>)
    ensures binding.None? ==> r == Failure(ContextMissing)
    ensures binding.Some? && !binding.value.authenticated ==> r == Failure(Unauthorized)
    ensures Ran(r) <==> binding.Some? && binding.value.authenticated
    ensures Ran(r) ==> r == Proceed(op)
  {
    match binding
    case None => Failure(ContextMissing)
    case Some(context) =>
      match CheckAuthentication(context)
      case Fail(e) => Failure(e)
      case Pass => Proceed(op)
  }

  /** The key `checkAuthorities` looks up: `action + "." + resource`. */
  function PermissionKey(action: string, resource: string): string
  {
    action + "." + resource
  }

  /** The authorities map grants exactly `scope` for the key. */
  predicate Grants(authorities: map<string, Byte>, action: string, resource: string, scope: Scope)
  {
    PermissionKey(action, resource) in authorities && authorities[PermissionKey(action, resource)] == scope.Value()
  }

  /** `checkAuthorities` (`@HasAuthority(resource, action, scope)`):
      authentication first, then the stored byte for the key must equal
      the required scope's byte exactly. */
  function CheckAuthorities<T>(binding: Option<RequestContext>, resource: string, action: string, scope: Scope,
                               op: Invocation<T>): (r: Result<T, AspectError>)
    ensures binding.None? ==> r == Failure(ContextMissing)
    ensures binding.Some? && !binding.value.authenticated ==> r == Failure(Unauthorized)
    ensures binding.Some? && binding.value.authenticated && binding.value.authorities.None? ==>
              r == Failure(NullPointer)
    ensures Ran(r) <==>
              && binding.Some? && binding.value.authenticated && binding.value.authorities.Some?
              && Grants(binding.value.authorities.value, action, resource, scope)
    ensures Ran(r) ==> r == Proceed(op)
    ensures r == Failure(Forbidden) <==>
              && binding.Some? && binding.value.authenticated && binding.value.authorities.Some?
              && !Grants(binding.value.authorities.value, action, resource, scope)
  {
    match binding
    case None => Failure(ContextMissing)
    case Some(context) =>
      match CheckAuthentication(context)
      case Fail(e) => Failure(e)
      case Pass =>
        var findPermission := action + "." + resource;
        var findScope := scope.Value();
        match context.authorities
        case None => Failure(NullPointer)
        case Some(authorities) =>
          var foundScope := if findPermission in authorities then Some(authorities[findPermission]) else None;
          if foundScope.None? || foundScope.value != findScope then Failure(Forbidden)
          else Proceed(op)
  }

  /** `checkInternal` (`@InternalOnly`): only the internal flag is consulted. */
  function CheckInternal<T>(binding: Option<RequestContext>, op: Invocation<T>): (r: Result<T, AspectError>)
    ensures binding.None? ==> r == Failure(ContextMissing)
    ensures Ran(r) <==> binding.Some? && binding.value.isInternal
    ensures Ran(r) ==> r == Proceed(op)
    ensures r == Failure(Forbidden) <==> binding.Some? && !binding.value.isInternal
  {
    match binding
    case None => Failure(ContextMissing)
    case Some(context) =>
      if !context.isInternal then Failure(Forbidden) else Proceed(op)
  }

  /** A refusal never depends on the operation: the guards decide before it
      runs, and a refused operation has no effect on the outcome. */
  lemma RefusalIgnoresOperation<T>(binding: Option<RequestContext>, resource: string, action: string,
                                   scope: Scope, op1: Invocation<T>, op2: Invocation<T>)
    ensures !Ran(CheckAuth(binding, op1)) ==> CheckAuth(binding, op2) == CheckAuth(binding, op1)
    ensures !Ran(CheckAuthorities(binding, resource, action, scope, op1)) ==>
              CheckAuthorities(binding, resource, action, scope, op2) ==
                CheckAuthorities(binding, resource, action, scope, op1)
    ensures !Ran(CheckInternal(binding, op1)) ==> CheckInternal(binding, op2) == CheckInternal(binding, op1)
  {
  }

  /** The guards' failures are distinct from the operation's own: an
      operation that fails comes out wrapped, never as a guard error. */
  lemma OperationFailureIsWrapped<T>(binding: Option<RequestContext>, resource: string, action: string,
                                     scope: Scope, op: Invocation<T>)
    requires op.Threw?
    ensures Ran(CheckAuth(binding, op)) <==> CheckAuth(binding, op) == Failure(Wrapped(op.cause))
    ensures Ran(CheckAuthorities(binding, resource, action, scope, op)) <==>
              CheckAuthorities(binding, resource, action, scope, op) == Failure(Wrapped(op.cause))
    ensures Ran(CheckInternal(binding, op)) <==> CheckInternal(binding, op) == Failure(Wrapped(op.cause))
  {
  }

  /** Exact match, no "at least": for a given key at most one required scope
      is satisfied, so a granted ALL does not satisfy a required OWN. */
  lemma ScopeMatchIsExact<T>(binding: Option<RequestContext>, resource: string, action: string,
                             s1: Scope, s2: Scope, op: Invocation<T>)
    requires Ran(CheckAuthorities(binding, resource, action, s1, op))
    requires s1 != s2
    ensures CheckAuthorities(binding, resource, action, s2, op) == Failure(Forbidden)
  {
    ValueInjective(s1, s2);
  }

  /** For an authenticated context that grants `granted` on a key, the
      authority check on that key runs the operation exactly when the
      required scope is `granted`, and refuses with Forbidden otherwise. */
  lemma GrantedScopeOnly<T>(context: RequestContext, resource: string, action: string,
                            granted: Scope, scope: Scope, op: Invocation<T>)
    requires context.authenticated && context.authorities.Some?
    requires PermissionKey(action, resource) in context.authorities.value
    requires context.authorities.value[PermissionKey(action, resource)] == granted.Value()
    ensures CheckAuthorities(Some(context), resource, action, scope, op) ==
              if scope == granted then Proceed(op) else Failure(Forbidden)
  {
    ValueInjective(scope, granted);
  }

  /** Passing the authority check implies passing the authentication check. */
  lemma AuthorityImpliesAuthentication<T>(binding: Option<RequestContext>, resource: string, action: string,
                                          scope: Scope, op: Invocation<T>)
    requires Ran(CheckAuthorities(binding, resource, action, scope, op))
    ensures CheckAuth(binding, op) == CheckAuthorities(binding, resource, action, scope, op)
  {
  }

  /** The internal check looks only at the internal flag. */
  lemma InternalIgnoresIdentity<T>(context: RequestContext, other: RequestContext, op: Invocation<T>)
    requires context.isInternal == other.isInternal
    ensures CheckInternal(Some(context), op) == CheckInternal(Some(other), op)
  {
  }

  /** A well-formed context never makes the authority check dereference
      null authorities. */
  lemma WellFormedHasAuthorities<T>(context: RequestContext, resource: string, action: string,
                                    scope: Scope, op: Invocation<T>)
    requires WellFormed(context)
    ensures CheckAuthorities(Some(context), resource, action, scope, op) != Failure(NullPointer)
  {
  }
}

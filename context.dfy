/**
 * The per-request security context: the mutable `CustomRequestContext` the
 * filter fills in with setters, and the read-only `RequestContext` view its
 * getters expose to the rest of the request.
 */
module Context {
  import opened Wrappers
  import opened JavaLang

  /** What the getters of a context return; `None` is a `null` field. */
  datatype RequestContext = RequestContext(
    authenticated: bool,
    isInternal: bool,
    traceId: Option<string>,
    userId: Option<Long>,
    tenantId: Option<Long>,
    deviceId: Option<string>,
    authorities: Option<map<string, Byte>>)

  /** The field defaults of `new CustomRequestContext()`. */
  const Fresh: RequestContext := RequestContext(false, false, None, None, None, None, None)

  /** A permission key has the form `action.resource`: exactly two
      dot-free parts around one dot. */
  predicate IsPermissionKey(k: string)
  {
    |Pieces(k, '.')| == 2
  }

  /** Keys have the form `action.resource` and values are scope bytes 0..3. */
  predicate WellFormedAuthorities(m: map<string, Byte>)
  {
    forall k :: k in m ==> IsPermissionKey(k) && 0 <= m[k] <= 3
  }

  /** The three shapes a context can take once the filter has built it:
      internal (only the trace id besides the flag), unauthenticated (no
      identity and no authorities), or fully populated authenticated. */
  predicate WellFormed(c: RequestContext)
  {
    || c == Fresh.(isInternal := true, traceId := c.traceId)
    || c == Fresh.(traceId := c.traceId, deviceId := c.deviceId)
    || (&& c.authenticated && !c.isInternal
        && c.userId.Some? && c.tenantId.Some?
        && c.authorities.Some? && WellFormedAuthorities(c.authorities.value))
  }

  /** `CustomRequestContext`: one field per getter, each with a setter that
      changes that field alone. */
  class CustomRequestContext {
    var authenticated: bool
    var isInternal: bool
    var traceId: Option<string>
    var userId: Option<Long>
    var tenantId: Option<Long>
    var deviceId: Option<string>
    var authorities: Option<map<string, Byte>>

    /** The values the getters currently return. */
    function View(): RequestContext
      reads this
    {
      RequestContext(authenticated, isInternal, traceId, userId, tenantId, deviceId, authorities)
    }

    /** `new CustomRequestContext()`: both flags false, every reference null. */
    constructor ()
      ensures View() == Fresh
    {
      authenticated := false;
      isInternal := false;
      traceId := None;
      userId := None;
      tenantId := None;
      deviceId := None;
      authorities := None;
    }

    method SetAuthenticated(v: bool)
      modifies this
      ensures View() == old(View()).(authenticated := v)
    {
      authenticated := v;
    }

    /** Lombok's setter for the boolean field `isInternal`. */
    method SetInternal(v: bool)
      modifies this
      ensures View() == old(View()).(isInternal := v)
    {
      isInternal := v;
    }

    method SetTraceId(v: Option<string>)
      modifies this
      ensures View() == old(View()).(traceId := v)
    {
      traceId := v;
    }

    method SetUserId(v: Option<Long>)
      modifies this
      ensures View() == old(View()).(userId := v)
    {
      userId := v;
    }

    method SetTenantId(v: Option<Long>)
      modifies this
      ensures View() == old(View()).(tenantId := v)
    {
      tenantId := v;
    }

    method SetDeviceId(v: Option<string>)
      modifies this
      ensures View() == old(View()).(deviceId := v)
    {
      deviceId := v;
    }

    method SetAuthorities(v: Option<map<string, Byte>>)
      modifies this
      ensures View() == old(View()).(authorities := v)
    {
      authorities := v;
    }
  }
}

/**
 * `InternalCheckingFilter`: a shared-secret gate in front of the paths under
 * the internal prefix.
 */
module InternalChecking {
  import opened Wrappers
  import opened JavaLang
  import opened Servlet

  /** What one call of the filter does with a request. */
  datatype Action =
    | Deny      // 403 with body "Forbidden", chain not invoked
    | Forward   // chain invoked once, response untouched
    | NoAction  // neither: the chain is not invoked and the response is untouched

  /** The decision of `doFilterInternal` as written: only an internal path is
      looked at, and it is forwarded exactly when `X-Internal-Secret` is
      present and equal (case-sensitively) to the configured secret. */
  function Decide(request: Request, secret: string): (a: Action)
    ensures a == NoAction <==> !StartsWith(request.uri, InternalPrefix)
    ensures a == Forward <==>
              StartsWith(request.uri, InternalPrefix) && Header(request, "X-Internal-Secret") == Some(secret)
    ensures a == Deny <==>
              StartsWith(request.uri, InternalPrefix) && Header(request, "X-Internal-Secret") != Some(secret)
    ensures a == Forward ==> "X-Internal-Secret" in request.headers
  {
    if StartsWith(request.uri, InternalPrefix) then
      match Header(request, "X-Internal-Secret")
      case None => Deny
      case Some(given) => if given == secret then Forward else Deny
    else NoAction
  }

  /** The evidently intended decision: the same gate for internal paths, and
      every other request passed on down the chain. */
  function IntendedDecide(request: Request, secret: string): (a: Action)
    ensures a != NoAction
    ensures a == Deny <==> Decide(request, secret) == Deny
    ensures !StartsWith(request.uri, InternalPrefix) ==> a == Forward
  {
    match Decide(request, secret)
    case NoAction => Forward
    case other => other
  }

  /** The literal prefix test: `/internal` without the trailing slash is not
      internal, so the gate does nothing for it. */
  lemma PrefixNeedsTrailingSlash(headers: Headers, secret: string)
    ensures Decide(Request("/internal", headers), secret) == NoAction
  {
    assert |"/internal"| < |InternalPrefix|;
  }

  class InternalCheckingFilter {
    /** `security.internal.secret`. */
    const internalSecret: string

    constructor (secret: string)
      ensures internalSecret == secret
    {
      internalSecret := secret;
    }

    /** `doFilterInternal`: deny, forward, or (for a non-internal path) do
        nothing at all. Nothing is bound to the request-context holder yet
        when this filter forwards. */
    method DoFilterInternal(request: Request, response: Response, chain: FilterChain)
      modifies response, chain
      ensures Decide(request, internalSecret) == Deny ==>
                && response.status == SC_FORBIDDEN && response.body == old(response.body) + "Forbidden"
                && chain.calls == old(chain.calls)
      ensures Decide(request, internalSecret) == Forward ==>
                && response.status == old(response.status) && response.body == old(response.body)
                && chain.calls == old(chain.calls) + [None]
      ensures Decide(request, internalSecret) == NoAction ==>
                && response.status == old(response.status) && response.body == old(response.body)
                && chain.calls == old(chain.calls)
    {
      var uri := request.uri;
      if StartsWith(uri, InternalPrefix) {
        var internalSecret := Header(request, "X-Internal-Secret");
        if internalSecret.None? || internalSecret.value != this.internalSecret {
          DenyRequest(response);
          return;
        }
        chain.DoFilter(None);
      }
    }

    /** `denyRequest`: status 403 and the text "Forbidden" written to the body. */
    method DenyRequest(response: Response)
      modifies response
      ensures response.status == SC_FORBIDDEN && response.body == old(response.body) + "Forbidden"
    {
      response.SetStatus(SC_FORBIDDEN);
      response.Write("Forbidden");
    }
  }
}

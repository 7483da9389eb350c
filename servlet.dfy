/**
 * The servlet surface the filters touch: a request's URI and headers, a
 * response reduced to its status and body, and a filter chain that records
 * each time it is invoked together with the context bound at that moment.
 */
module Servlet {
  import opened Wrappers
  import opened Context

  /** Header name to (first) value. */
  type Headers = map<string, string>

  datatype Request = Request(uri: string, headers: Headers)

  /** `request.getHeader(name)`; `None` is `null`. */
  function Header(request: Request, name: string): Option<string>
  {
    if name in request.headers then Some(request.headers[name]) else None
  }

  /** The literal prefix both filters test with `startsWith`. */
  const InternalPrefix: string := "/internal/"

  const SC_OK: int := 200
  const SC_FORBIDDEN: int := 403

  /** An HTTP response: its status and what has been written to its body. */
  class Response {
    var status: int
    var body: string

    /** A response nothing has touched yet. */
    constructor ()
      ensures status == SC_OK && body == ""
    {
      status := SC_OK;
      body := "";
    }

    /** `setStatus`. */
    method SetStatus(s: int)
      modifies this
      ensures status == s && body == old(body)
    {
      status := s;
    }

    /** `getWriter().write(text)`. */
    method Write(text: string)
      modifies this
      ensures body == old(body) + text && status == old(status)
    {
      body := body + text;
    }
  }

  /** The rest of the chain. Each entry of `calls` is one `doFilter` call,
      holding the context bound to the request-context holder during it
      (`None`: nothing bound). */
  class FilterChain {
    var calls: seq<Option<RequestContext>>

    constructor ()
      ensures calls == []
    {
      calls := [];
    }

    /** `filterChain.doFilter(request, response)` while `bound` is bound. */
    method DoFilter(bound: Option<RequestContext>)
      modifies this
      ensures calls == old(calls) + [bound]
    {
      calls := calls + [bound];
    }
  }
}

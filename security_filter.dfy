/**
 * `SecurityFilter`: builds a request's security context from the trusted
 * headers and forwards the request once with that context bound.
 */
module SecurityFilter {
  import opened Wrappers
  import opened JavaLang
  import opened Scopes
  import opened Context
  import opened Servlet

  /** The exceptions `doFilterInternal` lets escape. */
  datatype FilterError =
    | NullPointer(header: string)              // a method called on the null value of a missing header
    | NumberFormat(header: string)             // `Long.valueOf` rejecting a header value (or its null)
    | IndexOutOfBounds(index: nat, length: nat) // `parts[index]` of a token that split into `length` parts

  /** How a call of `doFilterInternal` ends. */
  datatype Completion = Normal | Threw(error: FilterError)

  // ---------------------------------------------------------------------
  // The authorities header
  // ---------------------------------------------------------------------

  /** The key a token is stored under: its first two dot-split segments
      joined by a dot (`parts[0] + "." + parts[1]`). */
  function KeyOf(token: string): string
  {
    var parts := Split(token, '.');
    if |parts| < 2 then "" else parts[0] + "." + parts[1]
  }

  /** The scope byte a token is stored with: that of `lookup` of its third
      dot-split segment. */
  function ScopeOf(token: string, lookup: string -> Scope): Byte
  {
    var parts := Split(token, '.');
    if |parts| < 3 then NONE.Value() else lookup(parts[2]).Value()
  }

  /** One `action.resource.scope` token as the loop of `buildAuthoritiesMap`
      handles it: split on `.`, key `parts[0] + "." + parts[1]`, value the
      byte of `lookup(parts[2])`, segments past the third ignored. Fewer than
      three segments is an `ArrayIndexOutOfBoundsException`, which the
      `catch (IllegalArgumentException)` does not catch. */
  function ParseAuthority(token: string, lookup: string -> Scope): (r: Result<(string, Byte), FilterError>)
    ensures r.Failure? <==> |Split(token, '.')| < 3
    ensures r.Failure? ==> r.error == IndexOutOfBounds(|Split(token, '.')|, |Split(token, '.')|)
    ensures r.Success? ==> r.value == (KeyOf(token), ScopeOf(token, lookup))
  {
    var parts := Split(token, '.');
    if |parts| < 3 then Failure(IndexOutOfBounds(|parts|, |parts|))
    else Success((parts[0] + "." + parts[1], lookup(parts[2]).Value()))
  }

  /** The map `buildAuthoritiesMap` returns for `tokens`, taken left to
      right: each token `put`s its entry (so the last one for a key wins),
      and the first token that throws ends the loop with its exception. */
  function AuthoritiesOf(tokens: seq<string>, lookup: string -> Scope): Result<map<string, Byte>, FilterError>
  {
    if tokens == [] then Success(map[])
    else
      match AuthoritiesOf(tokens[..|tokens| - 1], lookup)
      case Failure(e) => Failure(e)
      case Success(m) =>
        match ParseAuthority(tokens[|tokens| - 1], lookup)
        case Failure(e) => Failure(e)
        case Success(entry) => Success(m[entry.0 := entry.1])
  }

  /** Token `i` is the first one that throws. */
  predicate FirstFailing(tokens: seq<string>, lookup: string -> Scope, i: int)
  {
    && 0 <= i < |tokens|
    && ParseAuthority(tokens[i], lookup).Failure?
    && forall j :: 0 <= j < i ==> ParseAuthority(tokens[j], lookup).Success?
  }

  /** The map is built exactly when every token parses; otherwise the
      exception is that of the first token that does not. */
  lemma {:induction false} AuthoritiesOfFails(tokens: seq<string>, lookup: string -> Scope)
    ensures AuthoritiesOf(tokens, lookup).Success? <==>
              forall i :: 0 <= i < |tokens| ==> ParseAuthority(tokens[i], lookup).Success?
    ensures AuthoritiesOf(tokens, lookup).Failure? ==>
              exists i :: FirstFailing(tokens, lookup, i) &&
                AuthoritiesOf(tokens, lookup).error == ParseAuthority(tokens[i], lookup).error
    decreases |tokens|
  {
    if tokens != [] {
      var init := tokens[..|tokens| - 1];
      AuthoritiesOfFails(init, lookup);
      assert forall i :: 0 <= i < |init| ==> init[i] == tokens[i];
      if AuthoritiesOf(init, lookup).Failure? {
        var i :| FirstFailing(init, lookup, i) &&
          AuthoritiesOf(init, lookup).error == ParseAuthority(init[i], lookup).error;
        assert FirstFailing(tokens, lookup, i);
      } else if ParseAuthority(tokens[|tokens| - 1], lookup).Failure? {
        assert FirstFailing(tokens, lookup, |tokens| - 1);
      }
    }
  }

  /** Once a prefix of the tokens throws, the whole list throws the same. */
  lemma {:induction false} AuthoritiesOfFailurePersists(tokens: seq<string>, n: nat, lookup: string -> Scope)
    requires n <= |tokens|
    requires AuthoritiesOf(tokens[..n], lookup).Failure?
    ensures AuthoritiesOf(tokens, lookup) == AuthoritiesOf(tokens[..n], lookup)
    decreases |tokens| - n
  {
    if n < |tokens| {
      assert tokens[..|tokens| - 1][..n] == tokens[..n];
      AuthoritiesOfFailurePersists(tokens[..|tokens| - 1], n, lookup);
    } else {
      assert tokens[..n] == tokens;
    }
  }

  /** One step of the fold: the last token `put`s its entry into the map of the others. */
  lemma AuthoritiesOfStep(tokens: seq<string>, lookup: string -> Scope)
    requires tokens != [] && AuthoritiesOf(tokens, lookup).Success?
    ensures AuthoritiesOf(tokens[..|tokens| - 1], lookup).Success?
    ensures AuthoritiesOf(tokens, lookup).value ==
              AuthoritiesOf(tokens[..|tokens| - 1], lookup).value
                [KeyOf(tokens[|tokens| - 1]) := ScopeOf(tokens[|tokens| - 1], lookup)]
  {
  }

  /** The entry each token `put`s, in header order. */
  function EntriesOf(tokens: seq<string>, lookup: string -> Scope): (r: seq<(string, Byte)>)
    ensures |r| == |tokens|
  {
    seq(|tokens|, i requires 0 <= i < |tokens| => (KeyOf(tokens[i]), ScopeOf(tokens[i], lookup)))
  }

  /** A map that is built is the result of putting every token's entry in order. */
  lemma {:induction false} AuthoritiesOfPutsEntries(tokens: seq<string>, lookup: string -> Scope)
    requires AuthoritiesOf(tokens, lookup).Success?
    ensures AuthoritiesOf(tokens, lookup).value == PutAll(EntriesOf(tokens, lookup))
    decreases |tokens|
  {
    if tokens != [] {
      var n := |tokens| - 1;
      AuthoritiesOfStep(tokens, lookup);
      AuthoritiesOfPutsEntries(tokens[..n], lookup);
      assert EntriesOf(tokens, lookup)[..n] == EntriesOf(tokens[..n], lookup);
    }
  }

  /** The key set is exactly the keys of the tokens, and each key holds the
      scope of the last token that produced it (`HashMap.put`: last write wins). */
  lemma AuthoritiesOfLastWins(tokens: seq<string>, lookup: string -> Scope)
    requires AuthoritiesOf(tokens, lookup).Success?
    ensures forall k :: k in AuthoritiesOf(tokens, lookup).value <==>
              exists i :: 0 <= i < |tokens| && EntriesOf(tokens, lookup)[i].0 == k
    ensures forall i :: 0 <= i < |tokens| && LastFor(EntriesOf(tokens, lookup), i) ==>
              AuthoritiesOf(tokens, lookup).value[EntriesOf(tokens, lookup)[i].0] == EntriesOf(tokens, lookup)[i].1
  {
    var entries := EntriesOf(tokens, lookup);
    AuthoritiesOfPutsEntries(tokens, lookup);
    assert AuthoritiesOf(tokens, lookup).value == PutAll(entries);
    PutAllLastWins(entries);
  }

  /** Every key has the form `action.resource`, every value is a scope byte. */
  lemma {:induction false} AuthoritiesOfWellFormed(tokens: seq<string>, lookup: string -> Scope)
    requires AuthoritiesOf(tokens, lookup).Success?
    ensures WellFormedAuthorities(AuthoritiesOf(tokens, lookup).value)
    ensures (forall t :: lookup(t) == NONE) ==>
              forall k :: k in AuthoritiesOf(tokens, lookup).value ==> AuthoritiesOf(tokens, lookup).value[k] == 0
    decreases |tokens|
  {
    if tokens != [] {
      var n := |tokens| - 1;
      AuthoritiesOfWellFormed(tokens[..n], lookup);
      var parts := Split(tokens[n], '.');
      SplitIsTrimmedPieces(tokens[n], '.');
      PiecesOfJoin([parts[0], parts[1]], '.');
      assert Join([parts[0], parts[1]], '.') == parts[0] + "." + parts[1];
    }
  }

  /** As written, every stored scope byte is that of `NONE`. */
  lemma StoredScopesAreNone(tokens: seq<string>)
    requires AuthoritiesOf(tokens, ParseScope).Success?
    ensures forall k :: k in AuthoritiesOf(tokens, ParseScope).value ==>
              AuthoritiesOf(tokens, ParseScope).value[k] == NONE.Value()
  {
    AuthoritiesOfWellFormed(tokens, ParseScope);
  }

  /** A token that splits into `parts` (at least three) is stored under the
      first two joined by a dot, with the scope read from the third. */
  lemma ParseAuthorityOfParts(token: string, parts: seq<string>, lookup: string -> Scope)
    requires Split(token, '.') == parts && |parts| >= 3
    ensures ParseAuthority(token, lookup) == Success((parts[0] + "." + parts[1], lookup(parts[2]).Value()))
  {
  }

  /** A token made of three or more dot-free segments, the last one not
      empty, is stored under `segments[0] + "." + segments[1]` (the key
      `SecurityAspect` looks up for action `segments[0]` and resource
      `segments[1]`), with the scope read from the third segment; later
      segments are ignored. */
  lemma ParseWellFormedToken(segments: seq<string>, lookup: string -> Scope)
    requires |segments| >= 3 && Plain(segments, '.') && segments[|segments| - 1] != ""
    ensures ParseAuthority(Join(segments, '.'), lookup) ==
              Success((segments[0] + "." + segments[1], lookup(segments[2]).Value()))
  {
    SplitOfJoin(segments, '.');
    ParseAuthorityOfParts(Join(segments, '.'), segments, lookup);
  }

  /** `buildAuthoritiesMap(authorities)`, the loop of `put`s into a `HashMap`. */
  method BuildAuthoritiesMap(authorities: seq<string>) returns (r: Result<map<string, Byte>, FilterError>)
    ensures r == AuthoritiesOf(authorities, ParseScope)
  {
    var authoritiesMap: map<string, Byte> := map[];
    for i := 0 to |authorities|
      invariant AuthoritiesOf(authorities[..i], ParseScope) == Success(authoritiesMap)
    {
      var authority := authorities[i];
      assert authorities[..i + 1][..i] == authorities[..i];
      var parts := Split(authority, '.');
      if |parts| < 2 {
        // parts[0] or parts[1] is out of bounds
        AuthoritiesOfFailurePersists(authorities, i + 1, ParseScope);
        return Failure(IndexOutOfBounds(|parts|, |parts|));
      }
      var resourceAction := parts[0] + "." + parts[1];
      if |parts| < 3 {
        // parts[2] is out of bounds: not an IllegalArgumentException, so not caught
        AuthoritiesOfFailurePersists(authorities, i + 1, ParseScope);
        return Failure(IndexOutOfBounds(2, 2));
      }
      var scope := match ValueOf(ToLowerCase(parts[2]))
        case Some(s) => s
        case None => NONE;  // the IllegalArgumentException handler
      authoritiesMap := authoritiesMap[resourceAction := scope.Value()];
    }
    assert authorities[..|authorities|] == authorities;
    return Success(authoritiesMap);
  }

  // ---------------------------------------------------------------------
  // The context
  // ---------------------------------------------------------------------

  /** The context `doFilterInternal` forwards with, or the exception it
      throws, when the third authorities segment is read by `lookup`. */
  function ExtractWith(request: Request, lookup: string -> Scope): Result<RequestContext, FilterError>
  {
    var traceId := Header(request, "X-TraceId");
    if StartsWith(request.uri, InternalPrefix) then
      Success(Fresh.(traceId := traceId, isInternal := true))
    else
      match Header(request, "X-Authenticated")
      case None => Failure(NullPointer("X-Authenticated"))
      case Some(flag) =>
        var deviceId := Header(request, "X-DeviceId");
        if !EqualsIgnoreCase(flag, "true") then
          Success(Fresh.(traceId := traceId, deviceId := deviceId))
        else
          match Header(request, "X-Authorities")
          case None => Failure(NullPointer("X-Authorities"))
          case Some(header) =>
            match LongValueOf(Header(request, "X-UserId"))
            case None => Failure(NumberFormat("X-UserId"))
            case Some(userId) =>
              match LongValueOf(Header(request, "X-TenantId"))
              case None => Failure(NumberFormat("X-TenantId"))
              case Some(tenantId) =>
                match AuthoritiesOf(Split(header, ','), lookup)
                case Failure(e) => Failure(e)
                case Success(m) =>
                  Success(RequestContext(true, false, traceId, Some(userId), Some(tenantId), deviceId, Some(m)))
  }

  /** The context as the code is written (scope segment read by `ParseScope`). */
  function Extract(request: Request): Result<RequestContext, FilterError>
  {
    ExtractWith(request, ParseScope)
  }

  /** Internal path: only the flag and the trace id are set, nothing can fail. */
  lemma ExtractInternal(request: Request, lookup: string -> Scope)
    requires StartsWith(request.uri, InternalPrefix)
    ensures ExtractWith(request, lookup) ==
              Success(Fresh.(isInternal := true, traceId := Header(request, "X-TraceId")))
  {
  }

  /** Any other path: a missing `X-Authenticated` throws; otherwise the
      context is not internal, carries the trace and device ids, and is
      authenticated exactly when the header equals "true" ignoring case. An
      unauthenticated context carries nothing else. */
  lemma ExtractPublic(request: Request, lookup: string -> Scope)
    requires !StartsWith(request.uri, InternalPrefix)
    ensures Header(request, "X-Authenticated").None? ==>
              ExtractWith(request, lookup) == Failure(NullPointer("X-Authenticated"))
    ensures ExtractWith(request, lookup).Success? ==>
              var c := ExtractWith(request, lookup).value;
              && !c.isInternal
              && c.traceId == Header(request, "X-TraceId")
              && c.deviceId == Header(request, "X-DeviceId")
              && c.authenticated == EqualsIgnoreCase(Header(request, "X-Authenticated").value, "true")
    ensures Header(request, "X-Authenticated").Some? &&
            !EqualsIgnoreCase(Header(request, "X-Authenticated").value, "true") ==>
              ExtractWith(request, lookup) ==
                Success(Fresh.(traceId := Header(request, "X-TraceId"), deviceId := Header(request, "X-DeviceId")))
  {
  }

  /** Authenticated path: the context is built exactly when `X-Authorities`
      is present, both ids are decimal `long`s and every authorities token
      has three segments; the ids are the parsed values and the authorities
      the map of the comma-split header. The checks fail in source order. */
  lemma ExtractAuthenticated(request: Request, lookup: string -> Scope)
    requires !StartsWith(request.uri, InternalPrefix)
    requires Header(request, "X-Authenticated").Some?
    requires EqualsIgnoreCase(Header(request, "X-Authenticated").value, "true")
    ensures ExtractWith(request, lookup).Success? <==>
              && Header(request, "X-Authorities").Some?
              && LongValueOf(Header(request, "X-UserId")).Some?
              && LongValueOf(Header(request, "X-TenantId")).Some?
              && AuthoritiesOf(Split(Header(request, "X-Authorities").value, ','), lookup).Success?
    ensures Header(request, "X-Authorities").None? ==>
              ExtractWith(request, lookup) == Failure(NullPointer("X-Authorities"))
    ensures Header(request, "X-Authorities").Some? && LongValueOf(Header(request, "X-UserId")).None? ==>
              ExtractWith(request, lookup) == Failure(NumberFormat("X-UserId"))
    ensures && Header(request, "X-Authorities").Some?
            && LongValueOf(Header(request, "X-UserId")).Some?
            && LongValueOf(Header(request, "X-TenantId")).None? ==>
              ExtractWith(request, lookup) == Failure(NumberFormat("X-TenantId"))
    ensures && Header(request, "X-Authorities").Some?
            && LongValueOf(Header(request, "X-UserId")).Some?
            && LongValueOf(Header(request, "X-TenantId")).Some?
            && AuthoritiesOf(Split(Header(request, "X-Authorities").value, ','), lookup).Failure? ==>
              ExtractWith(request, lookup) ==
                Failure(AuthoritiesOf(Split(Header(request, "X-Authorities").value, ','), lookup).error)
    ensures ExtractWith(request, lookup).Success? ==>
              var c := ExtractWith(request, lookup).value;
              && c.authenticated
              && c.userId == LongValueOf(Header(request, "X-UserId"))
              && c.tenantId == LongValueOf(Header(request, "X-TenantId"))
              && c.authorities == Some(AuthoritiesOf(Split(Header(request, "X-Authorities").value, ','), lookup).value)
  {
  }

  /** Every context the filter builds has one of the three well-formed
      shapes; in particular no authenticated context lacks ids or authorities. */
  lemma ExtractWellFormed(request: Request, lookup: string -> Scope)
    requires ExtractWith(request, lookup).Success?
    ensures WellFormed(ExtractWith(request, lookup).value)
  {
    var c := ExtractWith(request, lookup).value;
    if c.authenticated {
      var header := Header(request, "X-Authorities").value;
      AuthoritiesOfWellFormed(Split(header, ','), lookup);
    }
  }

  /** As written, every scope byte in a built context is that of `NONE`. */
  lemma ExtractStoresOnlyNone(request: Request)
    requires Extract(request).Success? && Extract(request).value.authorities.Some?
    ensures forall k :: k in Extract(request).value.authorities.value ==>
              Extract(request).value.authorities.value[k] == NONE.Value()
  {
    var header := Header(request, "X-Authorities").value;
    StoredScopesAreNone(Split(header, ','));
  }

  // ---------------------------------------------------------------------
  // The filter
  // ---------------------------------------------------------------------

  /** `next`: invoke the chain once with `context` bound. */
  method Next(chain: FilterChain, context: CustomRequestContext)
    modifies chain
    ensures chain.calls == old(chain.calls) + [Some(context.View())]
  {
    chain.DoFilter(Some(context.View()));
  }

  /** `doFilterInternal`: fill a fresh context field by field and forward
      once with it, or throw before forwarding anything. */
  method DoFilterInternal(request: Request, chain: FilterChain) returns (c: Completion)
    modifies chain
    ensures Extract(request).Success? ==>
              c == Normal && chain.calls == old(chain.calls) + [Some(Extract(request).value)]
    ensures Extract(request).Failure? ==>
              c == Threw(Extract(request).error) && chain.calls == old(chain.calls)
  {
    var requestContext := new CustomRequestContext();
    var traceId := Header(request, "X-TraceId");
    requestContext.SetTraceId(traceId);

    if StartsWith(request.uri, InternalPrefix) {
      requestContext.SetInternal(true);
      Next(chain, requestContext);
      return Normal;
    }

    var authenticated := Header(request, "X-Authenticated");
    var deviceId := Header(request, "X-DeviceId");
    if authenticated.None? {
      return Threw(NullPointer("X-Authenticated"));
    }
    requestContext.SetAuthenticated(EqualsIgnoreCase(authenticated.value, "true"));
    requestContext.SetDeviceId(deviceId);

    if !requestContext.authenticated {
      Next(chain, requestContext);
      return Normal;
    }

    var userIdHeader := Header(request, "X-UserId");
    var tenantIdHeader := Header(request, "X-TenantId");
    var authoritiesHeader := Header(request, "X-Authorities");
    if authoritiesHeader.None? {
      return Threw(NullPointer("X-Authorities"));
    }
    var authorities := Split(authoritiesHeader.value, ',');

    var userId := LongValueOf(userIdHeader);
    if userId.None? {
      return Threw(NumberFormat("X-UserId"));
    }
    requestContext.SetUserId(userId);
    var tenantId := LongValueOf(tenantIdHeader);
    if tenantId.None? {
      return Threw(NumberFormat("X-TenantId"));
    }
    requestContext.SetTenantId(tenantId);
    var authoritiesMap := BuildAuthoritiesMap(authorities);
    if authoritiesMap.Failure? {
      return Threw(authoritiesMap.error);
    }
    requestContext.SetAuthorities(Some(authoritiesMap.value));

    Next(chain, requestContext);
    return Normal;
  }
}

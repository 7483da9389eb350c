# steak-security-starter, modelled in Dafny

The starter is a header-trust security layer for Spring servlet applications.
An API gateway in front of the service has already authenticated the caller and
passes the result on in request headers. Two filters and one aspect act on them:

- **InternalCheckingFilter** guards the paths under `/internal/`. It compares
  `X-Internal-Secret` with a configured shared secret and answers 403
  `Forbidden` when they differ.
- **SecurityFilter** turns the request into a request context. It reads
  `X-TraceId`, `X-Authenticated`, `X-DeviceId`, `X-UserId`, `X-TenantId`
  and `X-Authorities`, where the last header lists tokens of the form
  `action.resource.scope`. It then invokes the rest of the chain once, with the
  context bound.
- **SecurityAspect** runs around annotated operations:
  - `@RequireAuth` demands an authenticated context;
  - `@HasAuthority(resource, action, scope)` also demands that the context grant
    exactly that scope on `action.resource`;
  - `@InternalOnly` demands an internal context.
- **Scope** is the enumeration `OWN(1)`, `TENANT(2)`, `ALL(3)`, `NONE(0)`.
- **CustomRequestContext** is the mutable record the filter fills in field by field.

The model follows the code as it is written. The mutable parts are classes:
- the request context with its setters;
- the HTTP response with its status and body;
- the filter chain, which records for each invocation the context bound during it.

The two `doFilterInternal` methods and `buildAuthoritiesMap` are methods that
change those objects step by step. Each one is proved against a function over
values:
- `InternalChecking.Decide` for the gate;
- `SecurityFilter.Extract` for the context built, or the exception thrown;
- `SecurityFilter.AuthoritiesOf` for the authorities loop.

The aspect's advices are pure guard functions. Their input is the bound context
(`None` when nothing is bound) and the result the protected operation would
have. `Pipeline` runs the two filters in their configured order
(src/main/java/com/bravos/steak/security/starter/configuration/BlockingSecurityConfiguration.java:114-115 adds the internal gate before `SecurityFilter`) and
connects what the filters build with what the guards accept.

The Java library behaviour the code depends on is written out in `JavaLang`:
- `String.split` with a one-character literal separator and limit 0: no
  separator gives the whole string, and trailing empty strings are removed;
- `Long.valueOf`, with a sign, decimal digits and the 64-bit range;
- `equalsIgnoreCase`, `toLowerCase`, `toUpperCase` and `startsWith`;
- `HashMap.put`, where the last write wins.

Where the code and its documentation differ, the model follows the code:
- An unknown scope segment was meant to be stored as NONE. The code always
  stores NONE, because it lower-cases the segment before an exact,
  case-sensitive `Scope.valueOf` (see Findings).
- A missing `X-Authenticated` header is not treated as "unauthenticated". It
  throws a `NullPointerException`, and nothing is forwarded.
- A missing `X-Authorities` on an authenticated request throws as well.
- A token with fewer than three segments throws
  `ArrayIndexOutOfBoundsException`. The `catch` only handles
  `IllegalArgumentException`, so the exception is not caught.
- The internal gate does nothing at all for other paths (see Findings).

Files:

| file | module | contents |
|---|---|---|
| wrappers.dfy | Wrappers | `Option`, `Result`, `Outcome` |
| java_lang.dfy | JavaLang | `byte`/`long`, case mapping, `split`, `HashMap.put`, `Long.valueOf` |
| scope.dfy | Scopes | `Scope` and the scope-segment lookup |
| context.dfy | Context | `CustomRequestContext` and its value view |
| servlet.dfy | Servlet | request headers, `Response`, `FilterChain` |
| security_filter.dfy | SecurityFilter | `SecurityFilter` |
| internal_checking_filter.dfy | InternalChecking | `InternalCheckingFilter` |
| security_aspect.dfy | SecurityAspect | `SecurityAspect` |
| pipeline.dfy | Pipeline | the configured stack and end-to-end properties |

## Model

| member | source | states |
|---|---|---|
| Scopes.Value | src/main/java/com/bravos/steak/security/starter/model/Scope.java:20-48 | every constant's byte lies in 0..3, and NONE is the only one with byte 0 |
| Scopes.ValueInjective | src/main/java/com/bravos/steak/security/starter/model/Scope.java:20-48 | distinct scopes have distinct bytes, so comparing bytes is comparing scopes |
| Scopes.ValueOrdersByBreadth | src/main/java/com/bravos/steak/security/starter/model/Scope.java:8-9 | by byte the order is NONE < OWN < TENANT < ALL; with the 0..3 range this fixes the declared bytes NONE=0, OWN=1, TENANT=2, ALL=3 |
| Scopes.Name | src/main/java/com/bravos/steak/security/starter/model/Scope.java:20-41 | every constant's identifier has at least three letters, all upper case |
| Scopes.ValueOf | src/main/java/com/bravos/steak/security/starter/model/Scope.java:13-42 | `valueOf` finds a constant only when its identifier is exactly the string, and throws (None) when no identifier matches |
| Scopes.LowerCaseNamesNoConstant | src/main/java/com/bravos/steak/security/starter/model/Scope.java:20-41 | no lower-cased string is a constant name, so `valueOf` of it always throws |
| Scopes.ParseScope | src/main/java/com/bravos/steak/security/starter/filter/SecurityFilter.java:111-113 | reading a scope segment as written always gives NONE |
| Scopes.IntendedParseScope | src/main/java/com/bravos/steak/security/starter/filter/SecurityFilter.java:111-113 | the corrected reading: `valueOf` of the upper-cased segment, NONE when it names no constant; characterised by `Scopes.IntendedParseScopeIgnoresCase` |
| Scopes.IntendedParseScopeIgnoresCase | src/main/java/com/bravos/steak/security/starter/filter/SecurityFilter.java:111-113 | under the corrected reading, a segment equal to a constant name ignoring case gives that constant, and any other segment gives NONE |
| Scopes.LowerCaseNameRoundTrip | src/main/java/com/bravos/steak/security/starter/filter/SecurityFilter.java:111-113 | the lower-case spelling of each constant reads back as that constant under the corrected reading, and as NONE as written |
| JavaLang.LowerChar | src/main/java/com/bravos/steak/security/starter/filter/SecurityFilter.java:111 | lower-casing leaves no upper-case letter |
| JavaLang.UpperChar | src/main/java/com/bravos/steak/security/starter/filter/SecurityFilter.java:111 | upper-casing leaves no lower-case letter |
| JavaLang.ToLowerCase | src/main/java/com/bravos/steak/security/starter/filter/SecurityFilter.java:111 | `toLowerCase` keeps the length and leaves no upper-case letter |
| JavaLang.ToUpperCase | src/main/java/com/bravos/steak/security/starter/filter/SecurityFilter.java:111 | `toUpperCase` keeps the length and leaves no lower-case letter |
| JavaLang.CharEqualsIgnoreCaseIsLowerEquality | src/main/java/com/bravos/steak/security/starter/filter/SecurityFilter.java:77 | two characters are equal ignoring case exactly when their lower-case forms are equal |
| JavaLang.UpperCaseMatchesIgnoringCase | src/main/java/com/bravos/steak/security/starter/filter/SecurityFilter.java:77 | against an all-upper-case name, `equalsIgnoreCase` holds exactly when upper-casing the string gives the name |
| JavaLang.EqualsIgnoreCase | src/main/java/com/bravos/steak/security/starter/filter/SecurityFilter.java:77 | `equalsIgnoreCase`: same length and each pair of characters equal ignoring case; characterised by `JavaLang.EqualsIgnoreCaseIsLowerCaseEquality` |
| JavaLang.EqualsIgnoreCaseIsLowerCaseEquality | src/main/java/com/bravos/steak/security/starter/filter/SecurityFilter.java:77 | two strings are equal ignoring case exactly when their lower-case forms are equal |
| JavaLang.CaseMappingIdempotent | src/main/java/com/bravos/steak/security/starter/filter/SecurityFilter.java:111 | lower-casing (and upper-casing) a string a second time changes nothing |
| JavaLang.StartsWith | src/main/java/com/bravos/steak/security/starter/filter/InternalCheckingFilter.java:59 | `startsWith`: the prefix is no longer than the string and equals its head; characterised by `JavaLang.StartsWithConcat` |
| JavaLang.StartsWithConcat | src/main/java/com/bravos/steak/security/starter/filter/SecurityFilter.java:68 | a string starts with each of its own prefixes, and a string that starts with a prefix is that prefix followed by the rest |
| JavaLang.Pieces | src/main/java/com/bravos/steak/security/starter/filter/SecurityFilter.java:88 | cutting a string at every separator gives at least one piece |
| JavaLang.PiecesArePlain | src/main/java/com/bravos/steak/security/starter/filter/SecurityFilter.java:88 | no piece contains the separator |
| JavaLang.JoinPieces | src/main/java/com/bravos/steak/security/starter/filter/SecurityFilter.java:88 | joining the pieces with the separator gives back the string |
| JavaLang.PiecesOfPlain | src/main/java/com/bravos/steak/security/starter/filter/SecurityFilter.java:88 | a string without the separator is a single piece |
| JavaLang.PiecesOfSeparated | src/main/java/com/bravos/steak/security/starter/filter/SecurityFilter.java:88 | the pieces of `x + sep + t`, with `x` separator-free, are `x` followed by the pieces of `t` |
| JavaLang.PiecesOfJoin | src/main/java/com/bravos/steak/security/starter/filter/SecurityFilter.java:88 | the pieces of a join of separator-free strings are those strings |
| JavaLang.StripTrailingEmptyDropsOnlyEmpty | src/main/java/com/bravos/steak/security/starter/filter/SecurityFilter.java:88 | removing trailing empty strings keeps a prefix whose last element is not empty, and drops only empty strings |
| JavaLang.SplitIsTrimmedPieces | src/main/java/com/bravos/steak/security/starter/filter/SecurityFilter.java:108 | `split` gives a prefix of the pieces, none containing the separator; only trailing empty pieces are dropped, and when the separator occurs the last piece kept is not empty |
| JavaLang.PlainPrefix | src/main/java/com/bravos/steak/security/starter/filter/SecurityFilter.java:108 | a prefix of separator-free strings is separator-free |
| JavaLang.SplitOfJoin | src/main/java/com/bravos/steak/security/starter/filter/SecurityFilter.java:108 | `split` undoes a join of separator-free strings whose last one is non-empty |
| JavaLang.Split | src/main/java/com/bravos/steak/security/starter/filter/SecurityFilter.java:88 | `String.split` with limit 0 on a one-character separator: the string itself when the separator does not occur, otherwise the pieces between separators with trailing empty pieces removed; characterised by `JavaLang.SplitIsTrimmedPieces` and `JavaLang.SplitOfJoin` |
| JavaLang.PutAllKeys | src/main/java/com/bravos/steak/security/starter/filter/SecurityFilter.java:106-115 | after a sequence of `put`s the keys are exactly the keys put |
| JavaLang.PutAllLastWrite | src/main/java/com/bravos/steak/security/starter/filter/SecurityFilter.java:106-115 | the last `put` for a key decides its value |
| JavaLang.PutAllLastWins | src/main/java/com/bravos/steak/security/starter/filter/SecurityFilter.java:106-115 | the keys are those put and each holds the value of its last `put` |
| JavaLang.PutAll | src/main/java/com/bravos/steak/security/starter/filter/SecurityFilter.java:106-115 | successive `HashMap.put` calls from an empty map; characterised by `JavaLang.PutAllLastWins` (keys are those put, the last write wins) |
| JavaLang.LongValueOf | src/main/java/com/bravos/steak/security/starter/filter/SecurityFilter.java:90-91 | `Long.valueOf` succeeds only on a present string made of digits after at most one leading `+` or `-`, with at least one digit; anything else is a `NumberFormatException` |
| JavaLang.LongValueOfRange | src/main/java/com/bravos/steak/security/starter/filter/SecurityFilter.java:90-91 | a string of digits after an optional sign is read exactly when its signed value lies in the `long` range, and then as that value |
| JavaLang.NatToString | src/main/java/com/bravos/steak/security/starter/filter/SecurityFilter.java:90-91 | the decimal writing of a natural number is one or more digits |
| JavaLang.DigitsValueOfNatToString | src/main/java/com/bravos/steak/security/starter/filter/SecurityFilter.java:90-91 | the digits of a natural number read back as that number |
| JavaLang.LongValueOfToString | src/main/java/com/bravos/steak/security/starter/filter/SecurityFilter.java:90-91 | `Long.valueOf(Long.toString(n)) == n` for every `long` |
| JavaLang.LongToString | src/main/java/com/bravos/steak/security/starter/filter/SecurityFilter.java:90-91 | the decimal form of a `long`, with a minus sign when negative; `JavaLang.LongValueOfToString` shows `Long.valueOf` reads it back |
| Context.CustomRequestContext.constructor | src/main/java/com/bravos/steak/security/starter/context/CustomRequestContext.java:28-66 | a fresh context has both flags false and every other field null |
| Context.CustomRequestContext.SetAuthenticated | src/main/java/com/bravos/steak/security/starter/context/CustomRequestContext.java:34 | the setter changes only `authenticated`, and the getter then returns the value set |
| Context.CustomRequestContext.SetInternal | src/main/java/com/bravos/steak/security/starter/context/CustomRequestContext.java:39 | the setter changes only `isInternal` |
| Context.CustomRequestContext.SetTraceId | src/main/java/com/bravos/steak/security/starter/context/CustomRequestContext.java:44 | the setter changes only `traceId` |
| Context.CustomRequestContext.SetUserId | src/main/java/com/bravos/steak/security/starter/context/CustomRequestContext.java:49 | the setter changes only `userId` |
| Context.CustomRequestContext.SetTenantId | src/main/java/com/bravos/steak/security/starter/context/CustomRequestContext.java:54 | the setter changes only `tenantId` |
| Context.CustomRequestContext.SetDeviceId | src/main/java/com/bravos/steak/security/starter/context/CustomRequestContext.java:59 | the setter changes only `deviceId` |
| Context.CustomRequestContext.SetAuthorities | src/main/java/com/bravos/steak/security/starter/context/CustomRequestContext.java:61-66 | the setter changes only `authorities` |
| Servlet.Header | src/main/java/com/bravos/steak/security/starter/filter/SecurityFilter.java:64 | `getHeader`: the value sent under that name, or null when there is none; every lemma about the filters speaks of headers through it |
| Servlet.Response.constructor | src/main/java/com/bravos/steak/security/starter/filter/InternalCheckingFilter.java:55-57 | a response starts with status 200 and an empty body |
| Servlet.Response.SetStatus | src/main/java/com/bravos/steak/security/starter/filter/InternalCheckingFilter.java:76 | `setStatus` changes the status and nothing else |
| Servlet.Response.Write | src/main/java/com/bravos/steak/security/starter/filter/InternalCheckingFilter.java:77-79 | writing appends the text to the body and leaves the status alone |
| Servlet.FilterChain.constructor | src/main/java/com/bravos/steak/security/starter/filter/SecurityFilter.java:127-139 | a chain starts with no invocation recorded |
| Servlet.FilterChain.DoFilter | src/main/java/com/bravos/steak/security/starter/filter/SecurityFilter.java:131-134 | `doFilter` records one invocation, with the context bound at that moment |
| SecurityFilter.ParseAuthority | src/main/java/com/bravos/steak/security/starter/filter/SecurityFilter.java:108-114 | a token fails exactly when it splits into fewer than three segments, with `ArrayIndexOutOfBoundsException` at index = length; otherwise it yields key `parts[0] + "." + parts[1]` and the scope byte of `parts[2]` |
| SecurityFilter.AuthoritiesOf | src/main/java/com/bravos/steak/security/starter/filter/SecurityFilter.java:105-116 | the authorities loop as a left fold over the tokens; characterised by `SecurityFilter.AuthoritiesOfFails`, `SecurityFilter.AuthoritiesOfLastWins` and `SecurityFilter.AuthoritiesOfWellFormed`, and matched by the method `SecurityFilter.BuildAuthoritiesMap` |
| SecurityFilter.AuthoritiesOfFails | src/main/java/com/bravos/steak/security/starter/filter/SecurityFilter.java:105-116 | the map is built exactly when every token parses; otherwise the exception is that of the first failing token |
| SecurityFilter.AuthoritiesOfFailurePersists | src/main/java/com/bravos/steak/security/starter/filter/SecurityFilter.java:107-115 | once a token has thrown, later tokens do not change the outcome |
| SecurityFilter.AuthoritiesOfStep | src/main/java/com/bravos/steak/security/starter/filter/SecurityFilter.java:107-115 | each further token is one `put` into the map built so far |
| SecurityFilter.EntriesOf | src/main/java/com/bravos/steak/security/starter/filter/SecurityFilter.java:107-111 | there is one entry per token |
| SecurityFilter.AuthoritiesOfPutsEntries | src/main/java/com/bravos/steak/security/starter/filter/SecurityFilter.java:105-116 | a built map is the result of putting each token's entry in header order |
| SecurityFilter.AuthoritiesOfLastWins | src/main/java/com/bravos/steak/security/starter/filter/SecurityFilter.java:105-116 | the key set is exactly the set of token keys, and each key holds the scope of the last token producing it |
| SecurityFilter.AuthoritiesOfWellFormed | src/main/java/com/bravos/steak/security/starter/filter/SecurityFilter.java:105-116 | every key has the form `action.resource` and every value is a scope byte in 0..3; with a lookup that always gives NONE, every value is 0 |
| SecurityFilter.StoredScopesAreNone | src/main/java/com/bravos/steak/security/starter/filter/SecurityFilter.java:111-113 | as written, every stored scope byte is that of NONE |
| SecurityFilter.ParseAuthorityOfParts | src/main/java/com/bravos/steak/security/starter/filter/SecurityFilter.java:108-111 | a token with three or more segments is stored under its first two segments with the scope of the third; later segments are ignored |
| SecurityFilter.ParseWellFormedToken | src/main/java/com/bravos/steak/security/starter/filter/SecurityFilter.java:108-111 | a token made of dot-free segments is stored under `segments[0] + "." + segments[1]` with the scope of `segments[2]` |
| SecurityFilter.BuildAuthoritiesMap | src/main/java/com/bravos/steak/security/starter/filter/SecurityFilter.java:105-117 | the loop returns exactly `AuthoritiesOf` of the tokens: the map of all `put`s, or the first uncaught exception |
| SecurityFilter.ExtractInternal | src/main/java/com/bravos/steak/security/starter/filter/SecurityFilter.java:63-72 | an internal path gives `isInternal = true`, the trace id and nothing else; it never fails |
| SecurityFilter.ExtractPublic | src/main/java/com/bravos/steak/security/starter/filter/SecurityFilter.java:74-83 | any other path: a missing `X-Authenticated` throws; a built context is not internal, carries the trace and device ids, and is authenticated exactly when the header equals "true" ignoring case; an unauthenticated context carries nothing else |
| SecurityFilter.ExtractAuthenticated | src/main/java/com/bravos/steak/security/starter/filter/SecurityFilter.java:85-94 | an authenticated context is built exactly when `X-Authorities` is present, both ids parse and every token parses; otherwise the first failure in source order is thrown: a missing `X-Authorities`, then a bad `X-UserId`, then a bad `X-TenantId`, then the first bad token; the ids are the parsed values and the authorities are the map of the comma-split header |
| SecurityFilter.ExtractWith | src/main/java/com/bravos/steak/security/starter/filter/SecurityFilter.java:63-94 | the context `doFilterInternal` forwards with, or the exception it throws, for a given reading of the scope segment; characterised by `SecurityFilter.ExtractInternal`, `SecurityFilter.ExtractPublic`, `SecurityFilter.ExtractAuthenticated` and `SecurityFilter.ExtractWellFormed` |
| SecurityFilter.Extract | src/main/java/com/bravos/steak/security/starter/filter/SecurityFilter.java:111 | `SecurityFilter.ExtractWith` with the scope segment read as written; `SecurityFilter.ExtractStoresOnlyNone` shows what that stores |
| SecurityFilter.ExtractWellFormed | src/main/java/com/bravos/steak/security/starter/filter/SecurityFilter.java:63-94 | every built context is internal-only, unauthenticated-only, or fully populated and authenticated with well-formed authorities |
| SecurityFilter.ExtractStoresOnlyNone | src/main/java/com/bravos/steak/security/starter/filter/SecurityFilter.java:111-113 | as written, every stored scope in a built context is NONE |
| SecurityFilter.Next | src/main/java/com/bravos/steak/security/starter/filter/SecurityFilter.java:127-139 | `next` invokes the chain once, with the context's current values bound |
| SecurityFilter.DoFilterInternal | src/main/java/com/bravos/steak/security/starter/filter/SecurityFilter.java:59-95 | filling a fresh context field by field either forwards once with exactly `Extract(request)` bound, or throws that exception without forwarding |
| InternalChecking.Decide | src/main/java/com/bravos/steak/security/starter/filter/InternalCheckingFilter.java:58-66 | non-internal path means no action; an internal path is forwarded exactly when `X-Internal-Secret` is present and equal (case-sensitively) to the secret, and denied otherwise |
| InternalChecking.IntendedDecide | src/main/java/com/bravos/steak/security/starter/filter/InternalCheckingFilter.java:40-66 | the corrected gate never leaves a request unanswered: it denies exactly what the gate denies and forwards every non-internal path |
| InternalChecking.PrefixNeedsTrailingSlash | src/main/java/com/bravos/steak/security/starter/filter/InternalCheckingFilter.java:59 | `/internal` without the trailing slash is not treated as internal |
| InternalChecking.InternalCheckingFilter.constructor | src/main/java/com/bravos/steak/security/starter/filter/InternalCheckingFilter.java:36-37 | the filter holds the configured secret |
| InternalChecking.InternalCheckingFilter.DoFilterInternal | src/main/java/com/bravos/steak/security/starter/filter/InternalCheckingFilter.java:55-67 | deny: status 403, body "Forbidden" and the chain not invoked; forward: the chain invoked once and the response untouched; no action: nothing changes |
| InternalChecking.InternalCheckingFilter.DenyRequest | src/main/java/com/bravos/steak/security/starter/filter/InternalCheckingFilter.java:75-81 | a denial sets only the status to 403 and writes only "Forbidden" |
| SecurityAspect.Proceed | src/main/java/com/bravos/steak/security/starter/annotation/aspect/SecurityAspect.java:43-47 | the operation's result is returned unchanged, and its failure is wrapped |
| SecurityAspect.CheckAuthentication | src/main/java/com/bravos/steak/security/starter/annotation/aspect/SecurityAspect.java:109-113 | passes exactly for an authenticated context, and throws Unauthorized otherwise |
| SecurityAspect.CheckAuth | src/main/java/com/bravos/steak/security/starter/annotation/aspect/SecurityAspect.java:40-48 | nothing bound throws; unauthenticated is Unauthorized; the operation runs exactly for an authenticated context and its outcome is returned as is |
| SecurityAspect.CheckAuthorities | src/main/java/com/bravos/steak/security/starter/annotation/aspect/SecurityAspect.java:63-78 | authentication is checked first; null authorities throw; the operation runs exactly when the key `action + "." + resource` is present with a byte equal to the required scope's; a present key with a different byte, or an absent key, is Forbidden |
| SecurityAspect.CheckInternal | src/main/java/com/bravos/steak/security/starter/annotation/aspect/SecurityAspect.java:91-101 | the operation runs exactly for an internal context; any other bound context is Forbidden |
| SecurityAspect.RefusalIgnoresOperation | src/main/java/com/bravos/steak/security/starter/annotation/aspect/SecurityAspect.java:40-101 | a refusal does not depend on the operation: the guards decide before it runs |
| SecurityAspect.OperationFailureIsWrapped | src/main/java/com/bravos/steak/security/starter/annotation/aspect/SecurityAspect.java:40-101 | an operation that fails comes out wrapped exactly when the guard let it run, and so never as Unauthorized or Forbidden |
| SecurityAspect.ScopeMatchIsExact | src/main/java/com/bravos/steak/security/starter/annotation/aspect/SecurityAspect.java:67-72 | there is no "at least" rule: a key satisfies at most one required scope, so a granted ALL does not satisfy a required OWN |
| SecurityAspect.GrantedScopeOnly | src/main/java/com/bravos/steak/security/starter/annotation/aspect/SecurityAspect.java:67-77 | for a key granted scope g, the check runs the operation exactly when the required scope is g, and is Forbidden otherwise |
| SecurityAspect.AuthorityImpliesAuthentication | src/main/java/com/bravos/steak/security/starter/annotation/aspect/SecurityAspect.java:64-65 | passing `@HasAuthority` implies passing `@RequireAuth` with the same outcome |
| SecurityAspect.InternalIgnoresIdentity | src/main/java/com/bravos/steak/security/starter/annotation/aspect/SecurityAspect.java:92-95 | `@InternalOnly` looks only at the internal flag, and not at authentication |
| SecurityAspect.WellFormedHasAuthorities | src/main/java/com/bravos/steak/security/starter/annotation/aspect/SecurityAspect.java:69 | a context as the filter builds it never makes the authority check dereference null authorities |
| Pipeline.Downstream | src/main/java/com/bravos/steak/security/starter/filter/SecurityFilter.java:59-95 | `SecurityFilter` after the gate never answers or drops a request itself; a context it dispatches is well-formed and internal exactly on an internal path; an internal path is always dispatched, carrying the trace id |
| Pipeline.ServeWith | src/main/java/com/bravos/steak/security/starter/filter/InternalCheckingFilter.java:58-66 | only the gate denies (with 403) or drops a request; exactly the requests it forwards are dispatched or crash |
| Pipeline.Serve | src/main/java/com/bravos/steak/security/starter/filter/InternalCheckingFilter.java:58-66 | as written, non-internal requests are dropped; internal requests are denied with 403 "Forbidden" without the secret, or dispatched with an internal context carrying only the trace id; nothing crashes |
| Pipeline.IntendedServe | src/main/java/com/bravos/steak/security/starter/filter/InternalCheckingFilter.java:40-66 | with the corrected gate and scope reading, nothing is dropped, the gate denies the same requests, and every other request gets `SecurityFilter`'s outcome |
| Pipeline.Handle | src/main/java/com/bravos/steak/security/starter/configuration/BlockingSecurityConfiguration.java:114-115 | wiring the real objects together (gate, response, chains, `SecurityFilter`) gives exactly `Serve` |
| Pipeline.InternalFlagNeedsSecret | src/main/java/com/bravos/steak/security/starter/filter/InternalCheckingFilter.java:58-66 | under the corrected stack, a dispatched context is internal exactly when the path has the prefix and the secret matches; no other header can make it internal |
| Pipeline.InternalOnlyNeedsSecret | src/main/java/com/bravos/steak/security/starter/annotation/aspect/SecurityAspect.java:91-101 | under either stack, `@InternalOnly` runs the operation exactly for internal paths carrying the secret |
| Pipeline.InternalContextFailsIdentityGuards | src/main/java/com/bravos/steak/security/starter/annotation/aspect/SecurityAspect.java:109-113 | a context built for an internal path never passes `@RequireAuth` or `@HasAuthority` |
| Pipeline.KeyFormatAgrees | src/main/java/com/bravos/steak/security/starter/filter/SecurityFilter.java:108-111 | the key the filter stores `action.resource.scope` under is the key the authority guard looks up |
| Pipeline.AuthoritiesOfTwo | src/main/java/com/bravos/steak/security/starter/filter/SecurityFilter.java:106-115 | two tokens that parse give the map of their two entries, the second written last |
| Pipeline.InternalSyncWithSecret | src/main/java/com/bravos/steak/security/starter/filter/InternalCheckingFilter.java:59-65 | `/internal/sync` with the right secret is dispatched with an internal context, and `@InternalOnly` runs the operation |
| Pipeline.InternalSyncWithoutSecret | src/main/java/com/bravos/steak/security/starter/filter/InternalCheckingFilter.java:59-64 | `/internal/sync` without the secret header gets 403 "Forbidden", under either stack |
| Pipeline.LowerNameIsSegment | src/main/java/com/bravos/steak/security/starter/model/Scope.java:20-41 | a lower-cased constant name is a non-empty run of lower-case letters |
| Pipeline.GrantTokenParses | src/main/java/com/bravos/steak/security/starter/filter/SecurityFilter.java:108-111 | a token `action.resource.<scope in lower case>` is stored under the guard's key, with the scope the reading assigns |
| Pipeline.GrantTokenHasNoComma | src/main/java/com/bravos/steak/security/starter/filter/SecurityFilter.java:88 | such a token contains no comma and is non-empty |
| Pipeline.TwoGrantsAuthorities | src/main/java/com/bravos/steak/security/starter/filter/SecurityFilter.java:105-116 | the header `a1.r1.s1,a2.r2.s2` parses to the map of the two grants |
| Pipeline.GrantsContext | src/main/java/com/bravos/steak/security/starter/filter/SecurityFilter.java:74-94 | a non-internal request whose `X-Authenticated` is "true" ignoring case, whose ids parse as `long`s and whose grants all parse gives the authenticated context with the trace and device ids as sent, those ids and that map |
| Pipeline.TwoGrantsAsWritten | src/main/java/com/bravos/steak/security/starter/filter/SecurityFilter.java:111-113 | as written, a request granting `read.order.own,write.order.tenant` (in general) is dropped by the gate; `SecurityFilter` alone would store both grants as NONE, so reading with scope OWN is Forbidden and only a required NONE passes |
| Pipeline.TwoGrantsIntended | src/main/java/com/bravos/steak/security/starter/filter/SecurityFilter.java:85-94 | under the corrected stack, the same request is dispatched with `{a1.r1: s1, a2.r2: s2}` |
| Pipeline.TwoGrantsIntendedGuard | src/main/java/com/bravos/steak/security/starter/annotation/aspect/SecurityAspect.java:63-78 | then each key satisfies exactly the scope granted: reading orders with OWN runs, and with TENANT is Forbidden |
| Pipeline.UnauthenticatedFailsIdentityGuards | src/main/java/com/bravos/steak/security/starter/annotation/aspect/SecurityAspect.java:64-65 | under the corrected stack, a non-internal request whose `X-Authenticated` is present and not "true" ignoring case (a missing one throws) is dispatched unauthenticated with only its trace and device ids, and both `@RequireAuth` and `@HasAuthority` answer Unauthorized, never Forbidden |
| Pipeline.UnknownScopeIsNone | src/main/java/com/bravos/steak/security/starter/filter/SecurityFilter.java:111-113 | a scope segment naming no constant is stored as NONE under either reading, and then satisfies only a required NONE |
| Pipeline.UnknownScopeInRequest | src/main/java/com/bravos/steak/security/starter/filter/SecurityFilter.java:110-113 | a request granting one token whose scope segment names no constant builds the same context under both readings, with NONE stored under the token's key; on that forwarded context `@HasAuthority` runs the operation for a required NONE and is Forbidden for every other scope |

## Left out

- The `ScopedValue` holder and its per-request isolation. The binding is an explicit `Option` argument of the guards, and the chain records what was bound. Concurrency is not modelled.
- Spring wiring is not modelled: bean configuration, auto-configuration, `@EnableBlockingSecurity` and the security filter chain builder. Only the filter order is kept, in `Pipeline`.
- The annotations and the AOP machinery (`ProceedingJoinPoint`, reflection on the method signature). The guard receives the annotation's resource, action and scope as arguments, and the operation as the outcome of its one run.
- Servlet I/O. `getWriter`, `flush`, `close`, `IOException` and `ServletException` are not modelled. The response is its status and the text written. The `RuntimeException` that `next` wraps around chain failures is not modelled.
- Header names are matched exactly and each header has one value. Servlet containers compare header names ignoring case and may hold several values.
- Case mapping and digits are ASCII only. Java's Unicode `toLowerCase`/`toUpperCase` (locale rules included) and non-ASCII digits accepted by `Long.valueOf` are not modelled.
- `String.split` is modelled only for the one-character literal separators the filter uses, not for general regular expressions or limits.
- `Collections.unmodifiableMap`: the map is an immutable value, so the wrapper adds nothing.
- Getters, `RequestContext` and `RequestContextHolder`. The fields of `CustomRequestContext` are read directly or through `View()`.
- Exception messages, and `UnauthorizeException`/`ForbiddenException` payloads. Errors are kept only by kind, and the index and length of an out-of-bounds access.
- Pipeline.TwoGrantsAsWritten, Pipeline.TwoGrantsIntended and Pipeline.TwoGrantsIntendedGuard: the request with header `X-Authorities: read.order.own,write.order.tenant`, user id 42 and tenant id 7 is generalised to any two grants, actions and resources instead of those literal values: any ids that `Long.valueOf` reads, any trace and device ids, and any spelling of `true`. Headers are characterised by what `getHeader` returns rather than by a concrete header map.
- Aliasing of the bound context: the guards receive a value snapshot of the `CustomRequestContext` taken when the filter passes the request down. In Java the bound object stays mutable through its public setters, so a change made by application code between the filter and an aspect would be seen by the guards; the model does not capture that.

## Findings

| source | as written | input that shows it | evidently intended | confidence | as-written member | corrected member |
|---|---|---|---|---|---|---|
| src/main/java/com/bravos/steak/security/starter/filter/InternalCheckingFilter.java:58-66 | the filter has no `else`: a path outside `/internal/` is neither denied nor passed down the chain, so with this filter installed (src/main/java/com/bravos/steak/security/starter/configuration/BlockingSecurityConfiguration.java:115) no public request reaches `SecurityFilter` or the application | any request whose URI does not start with `/internal/`, e.g. `/orders` | forward every non-internal request (the doc comment at src/main/java/com/bravos/steak/security/starter/filter/InternalCheckingFilter.java:40-46 only describes denials for internal paths) | not executed | Pipeline.Serve (InternalChecking.Decide; Pipeline.TwoGrantsAsWritten shows `/orders` dropped) | Pipeline.IntendedServe (InternalChecking.IntendedDecide) |
| src/main/java/com/bravos/steak/security/starter/filter/SecurityFilter.java:111 | `Scope.valueOf(parts[2].toLowerCase())`: the constant names are upper case (src/main/java/com/bravos/steak/security/starter/model/Scope.java:20-41), so the lookup always throws and every stored scope is NONE | `X-Authorities: read.order.own`: stored byte 0, so `@HasAuthority(resource="order", action="read", scope=OWN)` is Forbidden | `valueOf` of the upper-cased segment, so `own` is stored as OWN | not executed | Scopes.ParseScope, Scopes.LowerCaseNameRoundTrip, Pipeline.TwoGrantsAsWritten | Scopes.IntendedParseScopeIgnoresCase, Pipeline.TwoGrantsIntendedGuard |

Both corrected definitions are used by `Pipeline.IntendedServe` and the lemmas about it. The main model of each filter stays as written. `SecurityFilter.ExtractWith` takes the scope lookup as a parameter, so every filter lemma holds for both readings.

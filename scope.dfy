/** The permission scope levels of `Scope.java` and how a scope token is read. */
module Scopes {
  import opened Wrappers
  import opened JavaLang

  /** The four constants, in declaration order. */
  datatype Scope = OWN | TENANT | ALL | NONE
  {
    /** `getValue()`: the byte each constant is declared with. */
    function Value(): (b: Byte)
      ensures 0 <= b <= 3
      ensures b == 0 <==> this == NONE
    {
      match this
      case OWN => 1
      case TENANT => 2
      case ALL => 3
      case NONE => 0
    }

    /** `name()`: the identifier of the constant. */
    function Name(): (n: string)
      ensures |n| >= 3
      ensures forall i :: 0 <= i < |n| ==> IsUpper(n[i])
    {
      match this
      case OWN => "OWN"
      case TENANT => "TENANT"
      case ALL => "ALL"
      case NONE => "NONE"
    }
  }

  /** `getValue` is injective: comparing bytes is comparing scopes. */
  lemma ValueInjective(a: Scope, b: Scope)
    ensures a.Value() == b.Value() <==> a == b
  {
  }

  /** The bytes order the scopes by breadth: NONE < OWN < TENANT < ALL. */
  lemma ValueOrdersByBreadth()
    ensures NONE.Value() < OWN.Value() < TENANT.Value() < ALL.Value()
  {
  }

  /** `Scope.valueOf(name)`: the constant whose identifier is exactly `name`;
      `None` is the `IllegalArgumentException` thrown for any other string. */
  function ValueOf(name: string): (r: Option<Scope>)
    ensures r.Some? ==> r.value.Name() == name
    ensures r.None? ==> forall s: Scope :: s.Name() != name
  {
    if name == "OWN" then Some(OWN)
    else if name == "TENANT" then Some(TENANT)
    else if name == "ALL" then Some(ALL)
    else if name == "NONE" then Some(NONE)
    else None
  }

  /** No lower-cased string is the name of a constant, so `valueOf` of it
      always throws. */
  lemma {:induction false} LowerCaseNamesNoConstant(token: string)
    ensures ValueOf(ToLowerCase(token)) == None
  {
    var l := ToLowerCase(token);
    // every constant name starts with an upper-case letter; l cannot
    assert |l| == 0 || !IsUpper(l[0]);
  }

  /** The third segment of an authorities token turned into a scope as
      `SecurityFilter.buildAuthoritiesMap` does it: `valueOf` of the
      lower-cased segment, `NONE` when that throws. Because the constant
      names are upper case the lookup never succeeds. */
  function ParseScope(token: string): (r: Scope)
    ensures r == NONE
  {
    LowerCaseNamesNoConstant(token);
    match ValueOf(ToLowerCase(token))
    case Some(s) => s
    case None => NONE
  }

  /** The evidently intended reading: `valueOf` of the upper-cased segment,
      `NONE` when that throws. */
  function IntendedParseScope(token: string): (r: Scope)
  {
    match ValueOf(ToUpperCase(token))
    case Some(s) => s
    case None => NONE
  }

  /** The intended reading is case-insensitive: a token naming a constant in
      any case yields that constant, and any other token yields `NONE`. */
  lemma IntendedParseScopeIgnoresCase(token: string, s: Scope)
    ensures EqualsIgnoreCase(token, s.Name()) ==> IntendedParseScope(token) == s
    ensures (forall t: Scope :: !EqualsIgnoreCase(token, t.Name())) ==> IntendedParseScope(token) == NONE
  {
    forall t: Scope
      ensures ToUpperCase(token) == t.Name() <==> EqualsIgnoreCase(token, t.Name())
    {
      UpperCaseMatchesIgnoringCase(token, t.Name());
    }
  }

  /** Round trip: the lower-case spelling of a constant reads back as that
      constant under the intended reading, while the code as written reads
      every one of them as `NONE`. */
  lemma LowerCaseNameRoundTrip(s: Scope)
    ensures IntendedParseScope(ToLowerCase(s.Name())) == s
    ensures ParseScope(ToLowerCase(s.Name())) == NONE
  {
    var l := ToLowerCase(s.Name());
    forall i | 0 <= i < |l|
      ensures CharEqualsIgnoreCase(l[i], s.Name()[i])
    {
      CharEqualsIgnoreCaseIsLowerEquality(l[i], s.Name()[i]);
    }
    IntendedParseScopeIgnoresCase(l, s);
  }
}

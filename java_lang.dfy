/**
 * The parts of the Java platform the security filters rely on: `byte` and
 * `long`, ASCII case mapping, `String.startsWith`, `String.equalsIgnoreCase`,
 * `String.split` with a one-character literal separator and `Long.valueOf`.
 * A `null` string is modelled as `None`.
 */
module JavaLang {
  import opened Wrappers

  /** Java `byte`: 8-bit two's complement. */
  newtype Byte = x: int | -128 <= x < 128

  const LongMin: int := -0x8000_0000_0000_0000
  const LongMax: int := 0x7FFF_FFFF_FFFF_FFFF

  /** Java `long`: 64-bit two's complement. */
  newtype Long = x: int | -0x8000_0000_0000_0000 <= x <= 0x7FFF_FFFF_FFFF_FFFF

  // ---------------------------------------------------------------------
  // Case mapping (ASCII only)
  // ---------------------------------------------------------------------

  predicate IsUpper(c: char) { 'A' <= c <= 'Z' }

  predicate IsLower(c: char) { 'a' <= c <= 'z' }

  /** `Character.toLowerCase` restricted to ASCII letters. */
  function LowerChar(c: char): (r: char)
    ensures !IsUpper(r)
  {
    if IsUpper(c) then (c as int + 32) as char else c
  }

  /** `Character.toUpperCase` restricted to ASCII letters. */
  function UpperChar(c: char): (r: char)
    ensures !IsLower(r)
  {
    if IsLower(c) then (c as int - 32) as char else c
  }

  /** `String.toLowerCase()`. */
  function ToLowerCase(s: string): (r: string)
    ensures |r| == |s|
    ensures forall i :: 0 <= i < |r| ==> !IsUpper(r[i])
  {
    seq(|s|, i requires 0 <= i < |s| => LowerChar(s[i]))
  }

  /** `String.toUpperCase()`. */
  function ToUpperCase(s: string): (r: string)
    ensures |r| == |s|
    ensures forall i :: 0 <= i < |r| ==> !IsLower(r[i])
  {
    seq(|s|, i requires 0 <= i < |s| => UpperChar(s[i]))
  }

  /** The per-character test of `String.regionMatches(true, ...)`: equal, equal
      after upper-casing, or equal after upper- then lower-casing. */
  predicate CharEqualsIgnoreCase(a: char, b: char)
  {
    a == b || UpperChar(a) == UpperChar(b) || LowerChar(UpperChar(a)) == LowerChar(UpperChar(b))
  }

  /** `a.equalsIgnoreCase(b)` for a non-null `b`. */
  predicate EqualsIgnoreCase(a: string, b: string)
  {
    |a| == |b| && forall i :: 0 <= i < |a| ==> CharEqualsIgnoreCase(a[i], b[i])
  }

  /** Comparing ignoring case is comparing the lower-cased characters. */
  lemma CharEqualsIgnoreCaseIsLowerEquality(a: char, b: char)
    ensures CharEqualsIgnoreCase(a, b) <==> LowerChar(a) == LowerChar(b)
  {
  }

  /** Against an all-upper-case name, `equalsIgnoreCase` holds exactly when
      upper-casing the string yields the name. */
  lemma UpperCaseMatchesIgnoringCase(s: string, name: string)
    requires forall i :: 0 <= i < |name| ==> IsUpper(name[i])
    ensures ToUpperCase(s) == name <==> EqualsIgnoreCase(s, name)
  {
    if EqualsIgnoreCase(s, name) {
      forall i | 0 <= i < |s|
        ensures ToUpperCase(s)[i] == name[i]
      {
        CharEqualsIgnoreCaseIsLowerEquality(s[i], name[i]);
      }
    }
  }

  /** `equalsIgnoreCase` is equality of the lower-cased strings. */
  lemma EqualsIgnoreCaseIsLowerCaseEquality(a: string, b: string)
    ensures EqualsIgnoreCase(a, b) <==> ToLowerCase(a) == ToLowerCase(b)
  {
    if |a| == |b| {
      forall i | 0 <= i < |a|
        ensures CharEqualsIgnoreCase(a[i], b[i]) <==> ToLowerCase(a)[i] == ToLowerCase(b)[i]
      {
        CharEqualsIgnoreCaseIsLowerEquality(a[i], b[i]);
      }
    }
  }

  /** Case mapping twice is case mapping once. */
  lemma CaseMappingIdempotent(s: string)
    ensures ToLowerCase(ToLowerCase(s)) == ToLowerCase(s)
    ensures ToUpperCase(ToUpperCase(s)) == ToUpperCase(s)
  {
  }

  // ---------------------------------------------------------------------
  // startsWith
  // ---------------------------------------------------------------------

  /** `s.startsWith(prefix)`: a literal, case-sensitive prefix test. */
  predicate StartsWith(s: string, prefix: string)
  {
    |prefix| <= |s| && s[..|prefix|] == prefix
  }

  /** A string starts with a prefix exactly when it is that prefix followed
      by something. */
  lemma StartsWithConcat(prefix: string, rest: string, s: string)
    ensures StartsWith(prefix + rest, prefix)
    ensures StartsWith(s, prefix) ==> s == prefix + s[|prefix|..]
  {
    assert (prefix + rest)[..|prefix|] == prefix;
  }

  // ---------------------------------------------------------------------
  // split
  // ---------------------------------------------------------------------

  /** Every piece between occurrences of `sep`, empty pieces included: the
      list `String.split` builds before it trims trailing empty strings. */
  function Pieces(s: string, sep: char): (r: seq<string>)
    ensures |r| >= 1
    decreases |s|
  {
    if s == [] then [""]
    else
      var rest := Pieces(s[1..], sep);
      if s[0] == sep then [""] + rest
      else [[s[0]] + rest[0]] + rest[1..]
  }

  /** None of the strings contains `sep`. */
  predicate Plain(ps: seq<string>, sep: char)
  {
    forall i :: 0 <= i < |ps| ==> sep !in ps[i]
  }

  /** No piece contains the separator. */
  lemma {:induction false} PiecesArePlain(s: string, sep: char)
    ensures Plain(Pieces(s, sep), sep)
    decreases |s|
  {
    if s != [] {
      PiecesArePlain(s[1..], sep);
      var rest := Pieces(s[1..], sep);
      if s[0] != sep {
        var r := Pieces(s, sep);
        assert r[0] == [s[0]] + rest[0];
        forall i | 1 <= i < |r|
          ensures sep !in r[i]
        {
          assert r[i] == rest[i];
        }
      }
    }
  }

  /** `String.join` of at least one piece. */
  function Join(ps: seq<string>, sep: char): string
    requires |ps| >= 1
  {
    if |ps| == 1 then ps[0] else ps[0] + [sep] + Join(ps[1..], sep)
  }

  /** Joining the pieces restores the string. */
  lemma {:induction false} JoinPieces(s: string, sep: char)
    ensures Join(Pieces(s, sep), sep) == s
    decreases |s|
  {
    if s != [] {
      var rest := Pieces(s[1..], sep);
      JoinPieces(s[1..], sep);
      if s[0] == sep {
        assert ([""] + rest)[1..] == rest;
      } else {
        var ps := [[s[0]] + rest[0]] + rest[1..];
        if |rest| > 1 {
          assert ps[1..] == rest[1..];
        }
      }
    }
  }

  /** A separator-free string is a single piece. */
  lemma {:induction false} PiecesOfPlain(s: string, sep: char)
    requires sep !in s
    ensures Pieces(s, sep) == [s]
    decreases |s|
  {
    if s != [] {
      assert sep !in s[1..];
      PiecesOfPlain(s[1..], sep);
      assert [s[0]] + s[1..] == s;
    }
  }

  lemma {:induction false} PiecesOfSeparated(x: string, sep: char, t: string)
    requires sep !in x
    ensures Pieces(x + [sep] + t, sep) == [x] + Pieces(t, sep)
    decreases |x|
  {
    if x == [] {
      assert x + [sep] + t == [sep] + t;
      assert ([sep] + t)[1..] == t;
    } else {
      var s := x + [sep] + t;
      assert s[1..] == x[1..] + [sep] + t;
      assert sep !in x[1..];
      PiecesOfSeparated(x[1..], sep, t);
      assert [s[0]] + x[1..] == x;
    }
  }

  /** Splitting a join of separator-free pieces gives the pieces back. */
  lemma {:induction false} PiecesOfJoin(ps: seq<string>, sep: char)
    requires |ps| >= 1
    requires Plain(ps, sep)
    ensures Pieces(Join(ps, sep), sep) == ps
    decreases |ps|
  {
    if |ps| == 1 {
      PiecesOfPlain(ps[0], sep);
    } else {
      PiecesOfJoin(ps[1..], sep);
      PiecesOfSeparated(ps[0], sep, Join(ps[1..], sep));
      assert [ps[0]] + ps[1..] == ps;
    }
  }

  /** The list without its trailing empty strings. */
  function StripTrailingEmpty(ps: seq<string>): seq<string>
  {
    if ps == [] then []
    else if ps[|ps| - 1] == "" then StripTrailingEmpty(ps[..|ps| - 1])
    else ps
  }

  /** Stripping keeps a prefix whose last element is not empty and drops
      only empty strings. */
  lemma {:induction false} StripTrailingEmptyDropsOnlyEmpty(ps: seq<string>)
    ensures |StripTrailingEmpty(ps)| <= |ps|
    ensures StripTrailingEmpty(ps) == ps[..|StripTrailingEmpty(ps)|]
    ensures StripTrailingEmpty(ps) != [] ==> StripTrailingEmpty(ps)[|StripTrailingEmpty(ps)| - 1] != ""
    ensures forall i :: |StripTrailingEmpty(ps)| <= i < |ps| ==> ps[i] == ""
  {
    if ps != [] && ps[|ps| - 1] == "" {
      var init := ps[..|ps| - 1];
      StripTrailingEmptyDropsOnlyEmpty(init);
      var r := StripTrailingEmpty(init);
      assert init[..|r|] == ps[..|r|];
      forall i | |r| <= i < |ps|
        ensures ps[i] == ""
      {
        if i < |ps| - 1 {
          assert ps[i] == init[i];
        }
      }
    }
  }

  /** `s.split(sep)` with limit 0, for a separator that is a single literal
      character (`","`, `"\\."`): a string without the separator is returned
      whole, even when it is empty; otherwise all pieces are kept except the
      trailing empty ones (so leading empty pieces stay). */
  function Split(s: string, sep: char): seq<string>
  {
    if sep !in s then [s] else StripTrailingEmpty(Pieces(s, sep))
  }

  /** What `split` yields is a prefix of the pieces, so none contains the
      separator; only empty pieces are dropped, and only from the end. */
  lemma SplitIsTrimmedPieces(s: string, sep: char)
    ensures Plain(Split(s, sep), sep)
    ensures |Split(s, sep)| <= |Pieces(s, sep)|
    ensures Split(s, sep) == Pieces(s, sep)[..|Split(s, sep)|]
    ensures forall i :: |Split(s, sep)| <= i < |Pieces(s, sep)| ==> Pieces(s, sep)[i] == ""
    ensures sep in s && Split(s, sep) != [] ==> Split(s, sep)[|Split(s, sep)| - 1] != ""
  {
    PiecesArePlain(s, sep);
    if sep !in s {
      PiecesOfPlain(s, sep);
    } else {
      var ps := Pieces(s, sep);
      var r := StripTrailingEmpty(ps);
      assert Split(s, sep) == r;
      StripTrailingEmptyDropsOnlyEmpty(ps);
      PlainPrefix(ps, |r|, sep);
    }
  }

  lemma PlainPrefix(ps: seq<string>, n: nat, sep: char)
    requires Plain(ps, sep) && n <= |ps|
    ensures Plain(ps[..n], sep)
  {
    forall i | 0 <= i < n
      ensures sep !in ps[..n][i]
    {
      assert ps[..n][i] == ps[i];
    }
  }

  /** Splitting a join of separator-free pieces restores them, provided the
      last one is not empty (a lone piece may be empty: `"".split(",")` is `[""]`). */
  lemma SplitOfJoin(ps: seq<string>, sep: char)
    requires |ps| >= 1
    requires Plain(ps, sep)
    requires |ps| > 1 ==> ps[|ps| - 1] != ""
    ensures Split(Join(ps, sep), sep) == ps
  {
    PiecesOfJoin(ps, sep);
    if |ps| > 1 {
      assert Join(ps, sep)[|ps[0]|] == sep;
    }
  }

  // ---------------------------------------------------------------------
  // HashMap.put
  // ---------------------------------------------------------------------

  /** The map after `put(k, v)` of every entry, in order, into an empty `HashMap`. */
  function PutAll<K, V>(entries: seq<(K, V)>): map<K, V>
  {
    if entries == [] then map[]
    else PutAll(entries[..|entries| - 1])[entries[|entries| - 1].0 := entries[|entries| - 1].1]
  }

  /** No entry after the `i`-th has the same key. */
  predicate LastFor<K(==), V>(entries: seq<(K, V)>, i: int)
    requires 0 <= i < |entries|
  {
    forall j :: i < j < |entries| ==> entries[j].0 != entries[i].0
  }

  /** The keys of the map are exactly the keys of the entries. */
  lemma {:induction false} PutAllKeys<K, V>(entries: seq<(K, V)>)
    ensures PutAll(entries).Keys == set i | 0 <= i < |entries| :: entries[i].0
    decreases |entries|
  {
    if entries != [] {
      var n := |entries| - 1;
      var init := entries[..n];
      PutAllKeys(init);
      assert (set i | 0 <= i < |entries| :: entries[i].0) ==
             (set i | 0 <= i < n :: init[i].0) + {entries[n].0} by {
        forall i | 0 <= i < n
          ensures entries[i].0 == init[i].0
        {
        }
      }
    }
  }

  /** The entry that is the last for its key decides the key's value. */
  lemma {:induction false} PutAllLastWrite<K, V>(entries: seq<(K, V)>, i: nat)
    requires i < |entries| && LastFor(entries, i)
    ensures entries[i].0 in PutAll(entries) && PutAll(entries)[entries[i].0] == entries[i].1
    decreases |entries|
  {
    var n := |entries| - 1;
    if i < n {
      var init := entries[..n];
      assert init[i] == entries[i];
      forall j | i < j < n
        ensures init[j].0 != init[i].0
      {
        assert init[j] == entries[j];
      }
      PutAllLastWrite(init, i);
    }
  }

  /** The keys are those of the entries, and the last write of a key wins. */
  lemma PutAllLastWins<K, V>(entries: seq<(K, V)>)
    ensures forall k :: k in PutAll(entries) <==> exists i :: 0 <= i < |entries| && entries[i].0 == k
    ensures forall i :: 0 <= i < |entries| && LastFor(entries, i) ==> PutAll(entries)[entries[i].0] == entries[i].1
  {
    PutAllKeys(entries);
    forall i | 0 <= i < |entries| && LastFor(entries, i)
      ensures PutAll(entries)[entries[i].0] == entries[i].1
    {
      PutAllLastWrite(entries, i);
    }
  }

  // ---------------------------------------------------------------------
  // Long.valueOf
  // ---------------------------------------------------------------------

  predicate IsDigit(c: char) { '0' <= c <= '9' }

  predicate AllDigits(s: string) { forall i :: 0 <= i < |s| ==> IsDigit(s[i]) }

  /** The value of a string of decimal digits, most significant first. */
  function DigitsValue(ds: string): nat
    requires AllDigits(ds)
  {
    if ds == [] then 0 else DigitsValue(ds[..|ds| - 1]) * 10 + (ds[|ds| - 1] as int - '0' as int)
  }

  /** The digits of a decimal literal: what follows an optional leading sign. */
  function Unsigned(t: string): string
  {
    if |t| > 0 && (t[0] == '-' || t[0] == '+') then t[1..] else t
  }

  /** `Long.valueOf(s)` in radix 10 (ASCII digits): an optional `-` or `+`,
      then at least one digit, and a value inside the `long` range. `None`
      stands for `NumberFormatException`, which `null` also raises. Any
      character other than a leading sign or a digit, and a lone sign, are
      rejected. */
  function LongValueOf(s: Option<string>): (r: Option<Long>)
    ensures r.Some? ==> s.Some? && |s.value| > 0
    ensures r.Some? ==> forall i :: 0 <= i < |s.value| ==> IsDigit(s.value[i]) || (i == 0 && s.value[0] in "+-")
    ensures r.Some? ==> |s.value| > 1 || IsDigit(s.value[0])
  {
    match s
    case None => None
    case Some(t) =>
      var digits := Unsigned(t);
      if |digits| == 0 || !AllDigits(digits) then None
      else
        var v: int := if t[0] == '-' then 0 - DigitsValue(digits) else DigitsValue(digits);
        if LongMin <= v <= LongMax then
          assert forall i :: 0 <= i < |t| ==> IsDigit(t[i]) || (i == 0 && t[0] in "+-") by {
            if t[0] == '-' || t[0] == '+' {
              forall i | 1 <= i < |t| ensures IsDigit(t[i]) { assert t[i] == digits[i - 1]; }
            }
          }
          Some(v as Long)
        else None
  }

  /** A string of digits after an optional sign is read exactly when its
      signed value lies in the `long` range, and then as that value. */
  lemma LongValueOfRange(t: string)
    requires |Unsigned(t)| > 0 && AllDigits(Unsigned(t))
    ensures var m := DigitsValue(Unsigned(t));
            var v := if t[0] == '-' then 0 - m else m;
            && (LongValueOf(Some(t)).Some? <==> LongMin <= v <= LongMax)
            && (LongValueOf(Some(t)).Some? ==> LongValueOf(Some(t)).value as int == v)
  {
  }

  /** Decimal digits of a natural number, without leading zeros. */
  function NatToString(n: nat): (r: string)
    ensures |r| >= 1 && AllDigits(r)
  {
    if n < 10 then [('0' as int + n) as char]
    else NatToString(n / 10) + [('0' as int + n % 10) as char]
  }

  /** `Long.toString(n)`: an optional minus sign and the decimal digits. */
  function LongToString(n: Long): string
  {
    if n < 0 then "-" + NatToString(-(n as int)) else NatToString(n as int)
  }

  lemma {:induction false} DigitsValueOfNatToString(n: nat)
    ensures DigitsValue(NatToString(n)) == n
  {
    if n >= 10 {
      var p := NatToString(n / 10);
      var s := NatToString(n);
      assert s[..|s| - 1] == p;
      DigitsValueOfNatToString(n / 10);
    }
  }

  /** `Long.valueOf(Long.toString(n)) == n`: every `long` written in decimal
      parses back to itself. */
  lemma LongValueOfToString(n: Long)
    ensures LongValueOf(Some(LongToString(n))) == Some(n)
  {
    if n < 0 {
      DigitsValueOfNatToString(-(n as int));
      assert LongToString(n)[1..] == NatToString(-(n as int));
    } else {
      DigitsValueOfNatToString(n as int);
    }
  }
}

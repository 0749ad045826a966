// The few PHP language rules the component relies on: loose comparison of
// nullable numbers, `explode`, `empty()` on a string, prefix tests and the
// decimal rendering of integers.

module Php {
  import opened Wrappers

  /** A scalar option value, as found in a transport's options array. */
  datatype Value = Str(s: string) | Int(i: int) | Null

  /** `isset($options[$key])`: the key is present and not null. */
  predicate IsSet(options: map<string, Value>, key: string)
  {
    key in options && options[key] != Null
  }

  /** PHP's truthiness of a nullable number: null and 0 are false. */
  predicate Truthy(x: Option<int>)
  {
    x.Some? && x.value != 0
  }

  /**
   * PHP's `a < b` on two nullable numbers. Two numbers compare numerically;
   * when either side is null, both sides are converted to booleans first.
   */
  predicate Less(a: Option<int>, b: Option<int>)
  {
    if a.Some? && b.Some? then a.value < b.value
    else !Truthy(a) && Truthy(b)
  }

  /** PHP's `a <= b` on two nullable numbers, which is `!(b < a)`. */
  predicate LessEq(a: Option<int>, b: Option<int>)
  {
    !Less(b, a)
  }

  /** The loose comparison is a strict order: irreflexive and asymmetric. */
  lemma LessIsStrict(a: Option<int>, b: Option<int>)
    ensures !Less(a, a)
    ensures Less(a, b) ==> !Less(b, a)
    ensures LessEq(a, b) <==> (Less(a, b) || (a.Some? && b.Some? && a.value == b.value) || ((a.None? || b.None?) && Truthy(a) == Truthy(b)))
  {
  }

  /** A null compares as "not less" than every number, and below every non-zero one. */
  lemma NullComparisons(n: int)
    ensures Less(None, Some(n)) <==> n != 0
    ensures !Less(Some(n), None)
    ensures LessEq(None, Some(n))
  {
  }

  /** `0 === strpos(s, prefix)`: `s` starts with `prefix`. */
  predicate StartsWith(s: string, prefix: string)
  {
    |prefix| <= |s| && s[..|prefix|] == prefix
  }

  /** PHP's `empty()` of a string: the empty string and `"0"` are empty. */
  predicate EmptyString(s: string)
  {
    s == "" || s == "0"
  }

  /**
   * `strtr(s, [from => to])` with a single pair: every occurrence of `from`,
   * scanning left to right without overlaps, is replaced by `to`.
   */
  function Strtr(s: string, from: string, to: string): string
    requires |from| > 0
    decreases |s|
  {
    if |s| < |from| then s
    else if s[..|from|] == from then to + Strtr(s[|from|..], from, to)
    else [s[0]] + Strtr(s[1..], from, to)
  }

  /** `sep` occurs in `s` at position `j`. */
  predicate OccursAt(s: string, sep: string, j: nat)
  {
    j + |sep| <= |s| && s[j..j + |sep|] == sep
  }

  predicate Contains(s: string, sep: string)
  {
    exists j: nat :: j <= |s| && OccursAt(s, sep, j)
  }

  /** The first occurrence of `sep` in `s` at or after `i`, if any. */
  function FindFrom(s: string, sep: string, i: nat): (k: Option<nat>)
    requires |sep| > 0 && i <= |s|
    ensures k.Some? ==> i <= k.value && OccursAt(s, sep, k.value)
    ensures k.Some? ==> forall j: nat :: i <= j < k.value ==> !OccursAt(s, sep, j)
    ensures k.None? ==> forall j: nat :: i <= j ==> !OccursAt(s, sep, j)
    decreases |s| - i
  {
    if i + |sep| > |s| then None
    else if s[i..i + |sep|] == sep then Some(i)
    else FindFrom(s, sep, i + 1)
  }

  /** PHP's `explode(sep, s)`: the pieces between the non-overlapping occurrences of `sep`, left to right. */
  function Explode(sep: string, s: string): (parts: seq<string>)
    requires |sep| > 0
    ensures |parts| >= 1
    decreases |s|
  {
    match FindFrom(s, sep, 0)
    case None => [s]
    case Some(k) => [s[..k]] + Explode(sep, s[k + |sep|..])
  }

  /** PHP's `implode(sep, parts)`. */
  function Implode(sep: string, parts: seq<string>): string
    requires |parts| >= 1
    decreases |parts|
  {
    if |parts| == 1 then parts[0] else parts[0] + sep + Implode(sep, parts[1..])
  }

  /** Gluing the pieces back together with the separator gives the original string. */
  lemma {:induction false} ImplodeExplode(sep: string, s: string)
    requires |sep| > 0
    ensures Implode(sep, Explode(sep, s)) == s
    decreases |s|
  {
    var found := FindFrom(s, sep, 0);
    if found.Some? {
      var k := found.value;
      var head, rest := s[..k], s[k + |sep|..];
      var tail := Explode(sep, rest);
      ImplodeExplode(sep, rest);
      assert Explode(sep, s) == [head] + tail;
      assert ([head] + tail)[1..] == tail;
      assert Implode(sep, [head] + tail) == head + sep + Implode(sep, tail);
      SplitAt(s, sep, k);
    }
  }

  lemma SplitAt(s: string, sep: string, k: nat)
    requires OccursAt(s, sep, k)
    ensures s == s[..k] + sep + s[k + |sep|..]
  {
    assert s == s[..k] + s[k..k + |sep|] + s[k + |sep|..];
  }

  /** No piece of an explode contains the separator. */
  lemma {:induction false} ExplodePiecesAreFree(sep: string, s: string)
    requires |sep| > 0
    ensures forall p :: p in Explode(sep, s) ==> !Contains(p, sep)
    decreases |s|
  {
    match FindFrom(s, sep, 0)
    case None =>
      forall j: nat | OccursAt(s, sep, j) ensures false { }
    case Some(k) =>
      var rest := s[k + |sep|..];
      ExplodePiecesAreFree(sep, rest);
      var head := s[..k];
      forall j: nat | OccursAt(head, sep, j) ensures false {
        assert head[j..j + |sep|] == s[j..j + |sep|];
        assert OccursAt(s, sep, j);
      }
      assert Explode(sep, s) == [head] + Explode(sep, rest);
  }

  /** A string holding no separator explodes into itself alone. */
  lemma ExplodeWithoutSeparator(sep: string, s: string)
    requires |sep| > 0 && !Contains(s, sep)
    ensures Explode(sep, s) == [s]
  {
  }

  function DigitChar(d: nat): char
    requires d < 10
  {
    "0123456789"[d]
  }

  /** The decimal rendering of a natural number. */
  function NatToString(n: nat): (s: string)
    ensures |s| >= 1
    ensures forall i :: 0 <= i < |s| ==> '0' <= s[i] <= '9'
    decreases n
  {
    if n < 10 then [DigitChar(n)] else NatToString(n / 10) + [DigitChar(n % 10)]
  }

  /** PHP's string conversion of an integer, as `sprintf('%s', n)` renders it. */
  function IntToString(i: int): (s: string)
    ensures |s| >= 1
    ensures (s[0] == '-') <==> i < 0
  {
    if i < 0 then "-" + NatToString(-i) else NatToString(i)
  }

  /** The value of a string of decimal digits. */
  function DigitsValue(s: string): nat
    requires forall i :: 0 <= i < |s| ==> '0' <= s[i] <= '9'
    decreases |s|
  {
    if s == [] then 0 else DigitsValue(s[..|s| - 1]) * 10 + (s[|s| - 1] as int - '0' as int)
  }

  predicate AllDigits(s: string)
  {
    forall i :: 0 <= i < |s| ==> '0' <= s[i] <= '9'
  }

  /** The string without its leading sign, if it has one. */
  function Unsigned(s: string): string
  {
    if |s| > 0 && (s[0] == '-' || s[0] == '+') then s[1..] else s
  }

  /** An integer numeric string: an optional sign, then at least one decimal digit. */
  predicate IntegerString(s: string)
  {
    |Unsigned(s)| > 0 && AllDigits(Unsigned(s))
  }

  function IntegerStringValue(s: string): int
    requires IntegerString(s)
  {
    var magnitude: int := DigitsValue(Unsigned(s));
    if s[0] == '-' then -magnitude else magnitude
  }

  /**
   * What a nullable `int` parameter receives without strict types: null and
   * an integer as they are, an integer string converted, and any other string
   * refused with a TypeError.
   */
  function IntArgument(v: Value): (r: Result<Option<int>>)
    ensures r.Err? <==> v.Str? && !IntegerString(v.s)
    ensures r.Err? ==> r.error == TypeError
    ensures v.Null? ==> r == Ok(None)
    ensures v.Int? ==> r == Ok(Some(v.i))
  {
    match v
    case Null => Ok(None)
    case Int(i) => Ok(Some(i))
    case Str(s) => if IntegerString(s) then Ok(Some(IntegerStringValue(s))) else Err(TypeError)
  }

  /** The decimal rendering of an integer is coerced back to that integer. */
  lemma IntArgumentOfRendering(i: int)
    ensures IntArgument(Str(IntToString(i))) == Ok(Some(i))
  {
    var s := IntToString(i);
    var m: nat := if i < 0 then -i else i;
    var digits := NatToString(m);
    assert Unsigned(s) == digits by {
      if i >= 0 {
        assert s == digits && '0' <= s[0] <= '9';
      }
    }
    assert IntegerString(s);
    NatToStringRoundTrip(m);
    assert IntegerStringValue(s) == i;
  }

  /** Reading the digits back gives the number they render. */
  lemma {:induction false} NatToStringRoundTrip(n: nat)
    ensures DigitsValue(NatToString(n)) == n
    decreases n
  {
    var s := NatToString(n);
    if n < 10 {
      assert s[..|s| - 1] == [];
    } else {
      NatToStringRoundTrip(n / 10);
      assert s[..|s| - 1] == NatToString(n / 10);
    }
  }
}

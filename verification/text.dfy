/** Text helpers the connector gets from the JDK: decimal rendering of
    numbers (what `String.format("%s", n)` prints for an Integer or a Long),
    lower-casing, and searching a sequence. */
module Text {
  import opened Common

  predicate IsDigit(c: char) {
    '0' <= c <= '9'
  }

  predicate AllDigits(s: string) {
    forall i :: 0 <= i < |s| ==> IsDigit(s[i])
  }

  function DigitChar(d: nat): (c: char)
    requires d < 10
    ensures IsDigit(c) && DigitValue(c) == d
  {
    ('0' as int + d) as char
  }

  function DigitValue(c: char): (d: nat)
    requires IsDigit(c)
    ensures d < 10
  {
    c as int - '0' as int
  }

  /** Decimal digits of a natural number, most significant first, with no
      leading zero. */
  function NatToString(n: nat): (s: string)
    ensures |s| > 0 && AllDigits(s)
    ensures s[0] == '0' <==> n == 0
    ensures |s| == 1 || s[0] != '0'
    decreases n
  {
    if n < 10 then [DigitChar(n)] else NatToString(n / 10) + [DigitChar(n % 10)]
  }

  /** Reads a non-empty run of decimal digits; anything else is None. */
  function ParseNat(s: string): (r: Option<nat>)
    ensures r.Some? <==> |s| > 0 && AllDigits(s)
    decreases |s|
  {
    if |s| == 0 || !IsDigit(s[|s| - 1]) then None
    else if |s| == 1 then Some(DigitValue(s[0]))
    else
      match ParseNat(s[..|s| - 1])
      case None => None
      case Some(m) => Some(m * 10 + DigitValue(s[|s| - 1]))
  }

  /** Parsing the rendering of a number gives the number back. */
  lemma {:induction false} ParseNatToString(n: nat)
    ensures ParseNat(NatToString(n)) == Some(n)
    decreases n
  {
    var s := NatToString(n);
    if n >= 10 {
      ParseNatToString(n / 10);
      assert s[..|s| - 1] == NatToString(n / 10);
    }
  }

  lemma NatToStringInjective(m: nat, n: nat)
    ensures NatToString(m) == NatToString(n) <==> m == n
  {
    ParseNatToString(m);
    ParseNatToString(n);
  }

  /** Java's `Long.toString`: a minus sign before the digits of a negative value. */
  function IntToString(i: int): (s: string)
  {
    if i < 0 then "-" + NatToString(-i) else NatToString(i)
  }

  /** Lower-cases the ASCII letters A-Z and leaves every other character. */
  function ToLower(s: string): (r: string)
    ensures |r| == |s|
    ensures forall i :: 0 <= i < |s| ==> !('A' <= r[i] <= 'Z')
    ensures forall i :: 0 <= i < |s| && 'A' <= s[i] <= 'Z' ==> r[i] == (s[i] as int + 32) as char
    ensures forall i :: 0 <= i < |s| && !('A' <= s[i] <= 'Z') ==> r[i] == s[i]
  {
    if s == [] then []
    else
      var c := s[0];
      [if 'A' <= c <= 'Z' then (c as int + 32) as char else c] + ToLower(s[1..])
  }

  /** Lower-casing twice is lower-casing once. */
  lemma {:induction false} ToLowerIdempotent(s: string)
    ensures ToLower(ToLower(s)) == ToLower(s)
  {
    if s != [] {
      ToLowerIdempotent(s[1..]);
      assert ToLower(s)[1..] == ToLower(s[1..]);
    }
  }

  /** Index of the first occurrence of x in s, or |s| when there is none. */
  function IndexOf<T(==)>(s: seq<T>, x: T): (i: nat)
    ensures i <= |s|
    ensures i < |s| ==> s[i] == x
    ensures forall k :: 0 <= k < i ==> s[k] != x
  {
    if s == [] then 0
    else if s[0] == x then 0
    else 1 + IndexOf(s[1..], x)
  }

  lemma IndexOfPrefix<T>(a: seq<T>, x: T, b: seq<T>)
    requires x !in a
    ensures IndexOf(a + [x] + b, x) == |a|
  {
    var s := a + [x] + b;
    assert s[|a|] == x;
  }

  /** Index of the last occurrence of x in s, or -1 when there is none. */
  function LastIndexOf<T(==)>(s: seq<T>, x: T): (i: int)
    ensures -1 <= i < |s|
    ensures i >= 0 ==> s[i] == x
    ensures forall k :: i < k < |s| ==> s[k] != x
  {
    if s == [] then -1
    else if s[|s| - 1] == x then |s| - 1
    else LastIndexOf(s[..|s| - 1], x)
  }

  lemma {:induction false} LastIndexOfSuffix<T>(a: seq<T>, x: T, b: seq<T>)
    requires x !in b
    ensures LastIndexOf(a + [x] + b, x) == |a|
    decreases |b|
  {
    var s := a + [x] + b;
    if b == [] {
      assert s[|s| - 1] == x;
    } else {
      assert s[|s| - 1] == b[|b| - 1];
      assert s[..|s| - 1] == a + [x] + b[..|b| - 1];
      LastIndexOfSuffix(a, x, b[..|b| - 1]);
    }
  }

  /** The rest of s after the prefix p, if s starts with p. */
  function DropPrefix<T(==)>(p: seq<T>, s: seq<T>): Option<seq<T>> {
    if p <= s then Some(s[|p|..]) else None
  }

  lemma DropPrefixOf<T>(p: seq<T>, r: seq<T>)
    ensures DropPrefix(p, p + r) == Some(r)
  {
    assert p <= p + r;
  }

  /** The parts of s before and after the first x (all of s and nothing, if
      there is no x). */
  function SplitAt<T(==)>(s: seq<T>, x: T): (seq<T>, seq<T>) {
    var i := IndexOf(s, x);
    if i == |s| then (s, []) else (s[..i], s[i + 1..])
  }

  lemma SplitAtOf<T>(a: seq<T>, x: T, b: seq<T>)
    requires x !in a
    ensures SplitAt(a + [x] + b, x) == (a, b)
  {
    IndexOfPrefix(a, x, b);
    var s := a + [x] + b;
    assert s[..|a|] == a && s[|a| + 1..] == b;
  }

  /** s without its last element, if that element is x. */
  function DropSuffix<T(==)>(s: seq<T>, x: T): Option<seq<T>> {
    if |s| > 0 && s[|s| - 1] == x then Some(s[..|s| - 1]) else None
  }

  lemma DropSuffixOf<T>(a: seq<T>, x: T)
    ensures DropSuffix(a + [x], x) == Some(a)
  {
    assert (a + [x])[..|a|] == a;
  }
}

/** The string operations the host code uses, and decimal numbers in text. */
module Text {
  import opened Options

  predicate HasPrefix(s: string, prefix: string) {
    |prefix| <= |s| && s[..|prefix|] == prefix
  }

  /** Position of the first `c`. */
  function Find(s: string, c: char): (r: Option<nat>)
    ensures r.None? ==> c !in s
    ensures r.Some? ==> r.value < |s| && s[r.value] == c && c !in s[..r.value]
  {
    if s == [] then None
    else if s[0] == c then Some(0)
    else
      var rest := Find(s[1..], c);
      if rest.None? then None
      else
        assert s[..rest.value + 1] == [s[0]] + s[1..][..rest.value];
        Some(rest.value + 1)
  }

  /** Position of the last `c`. */
  function FindLast(s: string, c: char): (r: Option<nat>)
    ensures r.None? ==> c !in s
    ensures r.Some? ==> r.value < |s| && s[r.value] == c && c !in s[r.value + 1..]
  {
    if s == [] then None
    else
      var n := |s| - 1;
      if s[n] == c then Some(n)
      else
        var rest := FindLast(s[..n], c);
        assert s == s[..n] + [s[n]];
        assert rest.Some? ==> s[rest.value + 1..] == s[..n][rest.value + 1..] + [s[n]];
        rest
  }

  /** The first separator is where a piece without one ends. */
  lemma {:induction false} FindAfter(a: string, c: char, b: string)
    requires c !in a
    ensures Find(a + [c] + b, c) == Some(|a|)
  {
    if a == [] {
    } else {
      assert (a + [c] + b)[1..] == a[1..] + [c] + b;
      FindAfter(a[1..], c, b);
    }
  }

  /** The last separator is where a piece without one begins. */
  lemma {:induction false} FindLastBefore(a: string, c: char, b: string)
    requires c !in b
    ensures FindLast(a + [c] + b, c) == Some(|a|)
  {
    if b == [] {
    } else {
      var n := |b| - 1;
      assert (a + [c] + b)[..|a| + 1 + n] == a + [c] + b[..n];
      FindLastBefore(a, c, b[..n]);
    }
  }

  // ---- Decimal numbers ----

  predicate IsDigit(c: char) {
    '0' <= c <= '9'
  }

  predicate AllDigits(s: string) {
    forall i :: 0 <= i < |s| ==> IsDigit(s[i])
  }

  function Value(s: string): nat
    requires AllDigits(s)
  {
    if s == [] then 0 else 10 * Value(s[..|s| - 1]) + (s[|s| - 1] - '0') as nat
  }

  function Print(n: nat): (s: string)
    ensures |s| > 0 && AllDigits(s) && Value(s) == n
  {
    var last := ['0' + (n % 10) as char];
    if n < 10 then last
    else
      var s := Print(n / 10) + last;
      assert s[..|s| - 1] == Print(n / 10);
      s
  }

  /** `str::parse` for an unsigned type: an optional plus sign, digits, and no more than `max`. */
  function ParseUnsigned(s: string, max: nat): Option<nat> {
    var digits := if s != [] && s[0] == '+' then s[1..] else s;
    if digits == [] || !AllDigits(digits) || Value(digits) > max then None else Some(Value(digits))
  }

  /** `str::parse` for a signed type. */
  function ParseSigned(s: string, min: int, max: int): Option<int> {
    var digits := if s != [] && (s[0] == '+' || s[0] == '-') then s[1..] else s;
    if digits == [] || !AllDigits(digits) then None
    else
      var v := if s[0] == '-' then 0 - Value(digits) else Value(digits);
      if v < min || v > max then None else Some(v)
  }

  function PrintSigned(v: int): string {
    if v < 0 then "-" + Print(-v) else Print(v)
  }

  lemma UnsignedRoundTrip(n: nat, max: nat)
    requires n <= max
    ensures ParseUnsigned(Print(n), max) == Some(n)
  {
    assert IsDigit(Print(n)[0]);
  }

  lemma SignedRoundTrip(v: int, min: int, max: int)
    requires min <= v <= max
    ensures ParseSigned(PrintSigned(v), min, max) == Some(v)
  {
    if v < 0 {
      assert PrintSigned(v)[1..] == Print(-v);
    } else {
      assert IsDigit(Print(v)[0]);
    }
  }
}

/** Bytes, little-endian integers, and records laid out part by part. */
module Bytes {
  newtype byte = x: int | 0 <= x < 256

  /** 256 to the power of `n`. */
  function Bound(n: nat): (b: nat)
    ensures b > 0
  {
    if n == 0 then 1 else 256 * Bound(n - 1)
  }

  function ToLe(v: nat, n: nat): (bytes: seq<byte>)
    requires v < Bound(n)
    ensures |bytes| == n
  {
    if n == 0 then [] else [(v % 256) as byte] + ToLe(v / 256, n - 1)
  }

  function FromLe(bytes: seq<byte>): (v: nat)
    ensures v < Bound(|bytes|)
  {
    if bytes == [] then 0 else bytes[0] as int + 256 * FromLe(bytes[1..])
  }

  lemma {:induction false} LeRoundTrip(v: nat, n: nat)
    requires v < Bound(n)
    ensures FromLe(ToLe(v, n)) == v
    decreases n
  {
    if n == 0 {
    } else {
      LeRoundTrip(v / 256, n - 1);
      assert ToLe(v, n)[1..] == ToLe(v / 256, n - 1);
    }
  }

  lemma {:induction false} LeIsCanonical(bytes: seq<byte>)
    ensures ToLe(FromLe(bytes), |bytes|) == bytes
    decreases |bytes|
  {
    if bytes == [] {
    } else {
      var first, rest := bytes[0], FromLe(bytes[1..]);
      LeIsCanonical(bytes[1..]);
      assert (first as int + 256 * rest) % 256 == first as int && (first as int + 256 * rest) / 256 == rest;
      assert bytes == [first] + bytes[1..];
    }
  }

  /** The lowest byte comes first. */
  lemma {:induction false} LeByte(v: nat, n: nat, k: nat)
    requires v < Bound(n) && k < n
    ensures ToLe(v, n)[k] as int == (v / Bound(k)) % 256
    decreases k
  {
    if k == 0 {
    } else {
      LeByte(v / 256, n - 1, k - 1);
      DivideTwice(v, Bound(k - 1));
      assert ToLe(v, n)[k] == ToLe(v / 256, n - 1)[k - 1];
    }
  }

  lemma DivideTwice(v: nat, d: nat)
    requires d > 0
    ensures v / (256 * d) == v / 256 / d
  {
    var q, r := v / 256 / d, v / 256 % d;
    var low := v % 256;
    assert v / 256 == q * d + r;
    assert v == 256 * (q * d + r) + low;
    assert v == q * (256 * d) + (256 * r + low);
    assert 0 <= 256 * r + low < 256 * d;
    QuotientIs(v, 256 * d, q, 256 * r + low);
  }

  lemma QuotientIs(v: nat, d: nat, q: nat, r: nat)
    requires d > 0 && v == q * d + r && r < d
    ensures v / d == q
  {
    var e, m := v / d, v % d;
    SplitOnce(e, m, q, r, d);
  }

  /** Quotient and remainder are unique. */
  lemma SplitOnce(e: int, m: nat, q: int, r: nat, d: nat)
    requires m < d && r < d && e * d + m == q * d + r
    ensures e == q
  {
    if e > q {
      assert e * d == (e - q) * d + q * d;
      AtLeastOne(e - q, d);
    } else if q > e {
      assert q * d == (q - e) * d + e * d;
      AtLeastOne(q - e, d);
    }
  }

  lemma AtLeastOne(x: int, d: nat)
    requires x >= 1
    ensures x * d >= d
  {
    assert x * d == (x - 1) * d + d;
  }

  /** The signed value of an unsigned one, and back: two's complement in `n` bytes. */
  function ToSigned(v: nat, n: nat): int {
    if 2 * v < Bound(n) then v else v - Bound(n)
  }

  predicate FitsSigned(v: int, n: nat) {
    0 - Bound(n) <= 2 * v < Bound(n)
  }

  function FromSigned(v: int, n: nat): (u: nat)
    requires FitsSigned(v, n)
    ensures u < Bound(n) && ToSigned(u, n) == v
  {
    if v >= 0 then v else v + Bound(n)
  }

  // ---- Layouts ----

  function Concat(parts: seq<seq<byte>>): seq<byte> {
    if parts == [] then [] else Concat(parts[..|parts| - 1]) + parts[|parts| - 1]
  }

  /** Where part `k` starts. */
  function Start(parts: seq<seq<byte>>, k: nat): nat
    requires k <= |parts|
  {
    if k == 0 then 0 else Start(parts, k - 1) + |parts[k - 1]|
  }

  lemma {:induction false} StartOfPrefix(parts: seq<seq<byte>>, n: nat, k: nat)
    requires k <= n <= |parts|
    ensures Start(parts[..n], k) == Start(parts, k)
    decreases k
  {
    if k == 0 {
    } else {
      StartOfPrefix(parts, n, k - 1);
    }
  }

  lemma {:induction false} LengthIsEnd(parts: seq<seq<byte>>)
    ensures |Concat(parts)| == Start(parts, |parts|)
    decreases |parts|
  {
    if parts == [] {
    } else {
      var n := |parts| - 1;
      LengthIsEnd(parts[..n]);
      StartOfPrefix(parts, n, n);
    }
  }

  /** Cutting a laid-out record at the starts gives its parts back. */
  lemma {:induction false} PartAt(parts: seq<seq<byte>>, k: nat)
    requires k < |parts|
    ensures Start(parts, k + 1) <= |Concat(parts)|
    ensures Concat(parts)[Start(parts, k)..Start(parts, k + 1)] == parts[k]
    decreases |parts|
  {
    var n := |parts| - 1;
    var init := parts[..n];
    LengthIsEnd(parts);
    LengthIsEnd(init);
    StartOfPrefix(parts, n, k);
    if k == n {
    } else {
      StartOfPrefix(parts, n, k + 1);
      PartAt(init, k);
      assert Concat(parts)[Start(parts, k)..Start(parts, k + 1)] == Concat(init)[Start(parts, k)..Start(parts, k + 1)];
    }
  }

  /** Parts cut out of some bytes one after the other are together those bytes. */
  lemma {:induction false} CutsJoin(data: seq<byte>, parts: seq<seq<byte>>)
    requires Start(parts, |parts|) <= |data|
    requires forall k :: 0 <= k < |parts| ==> CutAt(data, parts, k)
    ensures Concat(parts) == data[..Start(parts, |parts|)]
    decreases |parts|
  {
    if parts == [] {
    } else {
      var n := |parts| - 1;
      var init := parts[..n];
      StartOfPrefix(parts, n, n);
      forall k | 0 <= k < n ensures CutAt(data, init, k) {
        assert CutAt(data, parts, k);
        StartOfPrefix(parts, n, k);
      }
      CutsJoin(data, init);
      assert CutAt(data, parts, n);
    }
  }

  predicate CutAt(data: seq<byte>, parts: seq<seq<byte>>, k: nat)
    requires k < |parts|
  {
    Start(parts, k) + |parts[k]| <= |data| && data[Start(parts, k)..Start(parts, k) + |parts[k]|] == parts[k]
  }

  /** Writes `source` into a buffer whose bytes before `at` are the parts already written. */
  method CopyPart(buffer: array<byte>, at: nat, source: seq<byte>, ghost done: seq<seq<byte>>)
    returns (end: nat, ghost parts: seq<seq<byte>>)
    requires at + |source| <= buffer.Length && buffer[..at] == Concat(done)
    modifies buffer
    ensures parts == done + [source] && end == at + |source| && buffer[..end] == Concat(parts)
  {
    for i := 0 to |source|
      invariant buffer[..at] == Concat(done)
      invariant buffer[at..at + i] == source[..i]
    {
      buffer[at + i] := source[i];
    }
    end := at + |source|;
    parts := done + [source];
    assert parts[..|parts| - 1] == done;
    assert buffer[..end] == buffer[..at] + buffer[at..end];
  }
}

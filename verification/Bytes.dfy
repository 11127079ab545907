/** Little-endian integers in files of bytes. */
module Bytes {

  type byte = x: int | 0 <= x < 0x100

  const U32: nat := 0x1_0000_0000
  const U64: nat := 0x1_0000_0000_0000_0000

  /** How many values `w` bytes hold. */
  function Span(w: nat): (n: nat)
    ensures n >= 1
  {
    if w == 0 then 1 else 0x100 * Span(w - 1)
  }

  lemma Spans()
    ensures Span(4) == U32 && Span(8) == U64
  {
    assert Span(1) == 0x100 && Span(2) == 0x1_0000 && Span(3) == 0x100_0000 && Span(4) == U32;
    assert Span(5) == 0x100 * U32 && Span(6) == 0x1_0000 * U32 && Span(7) == 0x100_0000 * U32;
  }

  /** The lowest byte first. */
  function Put(n: nat, w: nat): (s: seq<byte>)
    ensures |s| == w
  {
    if w == 0 then [] else [n % 0x100] + Put(n / 0x100, w - 1)
  }

  function Get(s: seq<byte>): nat {
    if s == [] then 0 else s[0] + 0x100 * Get(s[1..])
  }

  lemma {:induction false} GetPut(n: nat, w: nat)
    requires n < Span(w)
    ensures Get(Put(n, w)) == n
  {
    if w == 0 {
    } else {
      GetPut(n / 0x100, w - 1);
      assert Put(n, w)[1..] == Put(n / 0x100, w - 1);
    }
  }

  lemma {:induction false} PutGet(s: seq<byte>)
    ensures Get(s) < Span(|s|)
    ensures Put(Get(s), |s|) == s
  {
    if s == [] {
    } else {
      PutGet(s[1..]);
      var n := Get(s);
      assert n % 0x100 == s[0] && n / 0x100 == Get(s[1..]);
      assert Put(n, |s|) == [s[0]] + s[1..];
    }
  }

  lemma DivideTwice(n: nat, b: nat)
    requires b >= 1
    ensures n / 0x100 / b == n / (0x100 * b)
  {
    var q, r := n / 0x100, n % 0x100;
    Quotient(n, 0x100 * b, q / b, 0x100 * (q % b) + r);
  }

  lemma Quotient(n: nat, d: nat, q: nat, r: nat)
    requires n == d * q + r && r < d
    ensures n / d == q
  {
    var k: int := n / d - q;
    assert d * (n / d) - d * q == d * k;
    assert k >= 1 ==> d * k >= d;
    assert k <= -1 ==> d * k + d <= 0;
  }

  /** Byte `i` is the `i`th digit of the number to the base 256, from the least
      significant on. */
  lemma {:induction false} PutAt(n: nat, w: nat, i: nat)
    requires i < w
    ensures Put(n, w)[i] == n / Span(i) % 0x100
  {
    if i == 0 {
    } else {
      PutAt(n / 0x100, w - 1, i - 1);
      DivideTwice(n, Span(i - 1));
    }
  }

  lemma GetAt(s: seq<byte>, i: nat)
    requires i < |s|
    ensures Get(s) / Span(i) % 0x100 == s[i]
  {
    PutGet(s);
    PutAt(Get(s), |s|, i);
  }

  /** A part of a part. */
  lemma Part(b: seq<byte>, lo: nat, hi: nat, p: nat, q: nat)
    requires lo <= p <= q <= hi <= |b|
    ensures b[lo..hi][p - lo..q - lo] == b[p..q]
  {
    assert |b[lo..hi]| == hi - lo;
    forall k | 0 <= k < q - p ensures b[lo..hi][p - lo..q - lo][k] == b[p..q][k] {
      assert b[lo..hi][p - lo + k] == b[p + k];
    }
  }
}

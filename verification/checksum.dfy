/**
 The IP header checksum: `calculateCheckSum` of src/network/ip.cc:14-35, against
 the one's complement sum of RFC 1071.

 A header is its bytes.  The source reads them as native 16-bit words, least
 significant byte first.
 */
module Checksums {
  import opened Machine

  const FULL: int := 0xFFFF

  function Word(p: seq<byte>, i: nat): (w: nat)
    requires 2 * i + 1 < |p|
    ensures w <= FULL
  {
    p[2 * i] as int + 256 * p[2 * i + 1] as int
  }

  /** The header length in 32-bit words. */
  function HeaderLength(p: seq<byte>): nat
    requires p != []
  {
    p[0] as int % 16
  }

  /** The packet holds the header its first byte declares, and a checksum field. */
  predicate HasHeader(p: seq<byte>) {
    |p| >= 20 && |p| >= 4 * HeaderLength(p)
  }

  function Sum(p: seq<byte>, n: nat): nat
    requires 2 * n <= |p|
  {
    if n == 0 then 0 else Sum(p, n - 1) + Word(p, n - 1)
  }

  /** Add the carries back in until the sum fits 16 bits. */
  function Fold(s: nat): nat {
    if s < 0x1_0000 then s else Fold(s / 0x1_0000 + s % 0x1_0000)
  }

  /** The sum of the header with the checksum field taken as zero. */
  function Rest(p: seq<byte>): nat
    requires HasHeader(p) && HeaderLength(p) >= 5
  {
    SumHolds(p, 2 * HeaderLength(p), 5);
    Sum(p, 2 * HeaderLength(p)) - Word(p, 5)
  }

  /** `calculateCheckSum`. */
  function CheckSum(p: seq<byte>): (c: nat)
    requires HasHeader(p)
  {
    if HeaderLength(p) < 5 then FULL
    else
      FoldIs(Rest(p));
      FULL - Fold(Rest(p))
  }

  lemma {:induction false} SumHolds(p: seq<byte>, n: nat, i: nat)
    requires 2 * n <= |p| && i < n
    ensures Word(p, i) <= Sum(p, n)
  {
    if i < n - 1 { SumHolds(p, n - 1, i); }
  }

  // ----- what folding computes -----

  lemma ModMultiple(q: nat, x: nat)
    ensures (FULL * q + x) % FULL == x % FULL
    decreases q
  {
  }

  /** Folding is reduction modulo 65535 to a non-zero representative. */
  lemma {:induction false} FoldIs(s: nat)
    ensures Fold(s) <= FULL && Fold(s) % FULL == s % FULL && (Fold(s) == 0 <==> s == 0)
  {
    if s >= 0x1_0000 {
      var q, r := s / 0x1_0000, s % 0x1_0000;
      FoldIs(q + r);
      assert s == FULL * q + (q + r);
      ModMultiple(q, q + r);
    }
  }

  /** Equal modulo 65535, and zero together, is enough. */
  lemma FoldEqual(s: nat, t: nat)
    requires s % FULL == t % FULL && (s == 0 <==> t == 0)
    ensures Fold(s) == Fold(t)
  {
    FoldIs(s);
    FoldIs(t);
    Representative(Fold(s), Fold(t));
  }

  lemma Representative(a: nat, b: nat)
    requires a <= FULL && b <= FULL && a % FULL == b % FULL && (a == 0 <==> b == 0)
    ensures a == b
  {
  }

  // ----- RFC 1071 -----

  /** Addition of 16-bit words with end-around carry. */
  function OnesAdd(a: nat, b: nat): (c: nat)
    requires a <= FULL && b <= FULL
    ensures c <= FULL
  {
    if a + b <= FULL then a + b else a + b - FULL
  }

  function OnesSum(p: seq<byte>, n: nat): (c: nat)
    requires 2 * n <= |p|
    ensures c <= FULL
  {
    if n == 0 then 0 else OnesAdd(OnesSum(p, n - 1), Word(p, n - 1))
  }

  /** Adding up first and folding once gives the word-by-word one's complement
      sum of section 1 of RFC 1071. */
  lemma {:induction false} FoldIsOnesSum(p: seq<byte>, n: nat)
    requires 2 * n <= |p|
    ensures Fold(Sum(p, n)) == OnesSum(p, n)
  {
    if n > 0 {
      FoldIsOnesSum(p, n - 1);
      var s, w := Sum(p, n - 1), Word(p, n - 1);
      FoldIs(s);
      ModSum(s, Fold(s), w, w);
      FoldEqual(s + w, Fold(s) + w);
      FoldOnce(Fold(s), w);
    }
  }

  lemma ModSum(a: nat, b: nat, c: nat, d: nat)
    requires a % FULL == b % FULL && c % FULL == d % FULL
    ensures (a + c) % FULL == (b + d) % FULL
  {
  }

  lemma FoldOnce(a: nat, b: nat)
    requires a <= FULL && b <= FULL
    ensures Fold(a + b) == OnesAdd(a, b)
  {
  }

  // ----- byte order -----

  function Swap(w: nat): (v: nat)
    requires w <= FULL
    ensures v <= FULL
  {
    w % 256 * 256 + w / 256
  }

  /** The header as a machine of the other byte order reads it. */
  function Swapped(p: seq<byte>): (q: seq<byte>)
    ensures |q| == |p|
    ensures forall i :: 0 <= i < |p| ==> q[i] == if i % 2 == 1 then p[i - 1] else if i + 1 < |p| then p[i + 1] else p[i]
  {
    seq(|p|, i requires 0 <= i < |p| => if i % 2 == 1 then p[i - 1] else if i + 1 < |p| then p[i + 1] else p[i])
  }

  lemma SwapIs(w: nat)
    requires w <= FULL
    ensures Swap(w) % FULL == (256 * w) % FULL && (Swap(w) == 0 <==> w == 0)
    ensures Swap(FULL - w) == FULL - Swap(w)
  {
    var hi, lo := w / 256, w % 256;
    assert 256 * w == FULL * hi + Swap(w);
    ModMultiple(hi, Swap(w));
    assert FULL - w == 256 * (255 - hi) + (255 - lo);
    assert (FULL - w) / 256 == 255 - hi && (FULL - w) % 256 == 255 - lo;
  }

  lemma SwapWord(p: seq<byte>, i: nat)
    requires 2 * i + 1 < |p|
    ensures Word(Swapped(p), i) == Swap(Word(p, i))
  {
  }

  lemma {:induction false} SwappedSum(p: seq<byte>, n: nat)
    requires 2 * n <= |p|
    ensures Sum(Swapped(p), n) % FULL == (256 * Sum(p, n)) % FULL && (Sum(Swapped(p), n) == 0 <==> Sum(p, n) == 0)
  {
    hide Word, Swap, Swapped;
    if n > 0 {
      SwappedSum(p, n - 1);
      SwapWord(p, n - 1);
      SwapIs(Word(p, n - 1));
      var s, t, w, v := Sum(p, n - 1), Sum(Swapped(p), n - 1), Word(p, n - 1), Word(Swapped(p), n - 1);
      ModSum(t, 256 * s, v, 256 * w);
      assert 256 * s + 256 * w == 256 * (s + w);
    }
  }

  /** The sum does not depend on the byte order: swapping every word swaps it
      (section 2, part B of RFC 1071). */
  lemma SumCommutesWithSwap(p: seq<byte>, n: nat)
    requires 2 * n <= |p|
    ensures OnesSum(Swapped(p), n) == Swap(OnesSum(p, n))
  {
    FoldIsOnesSum(p, n);
    FoldIsOnesSum(Swapped(p), n);
    SwappedSum(p, n);
    var f := OnesSum(p, n);
    FoldIs(Sum(p, n));
    FoldIs(Sum(Swapped(p), n));
    SwapIs(f);
    ModTimes(f, Sum(p, n));
    Representative(OnesSum(Swapped(p), n), Swap(f));
  }

  lemma ModTimes(a: nat, b: nat)
    requires a % FULL == b % FULL
    ensures (256 * a) % FULL == (256 * b) % FULL
  {
    ModMultiple(256 * (a / FULL), 256 * (a % FULL));
    ModMultiple(256 * (b / FULL), 256 * (b % FULL));
    assert 256 * a == FULL * (256 * (a / FULL)) + 256 * (a % FULL);
    assert 256 * b == FULL * (256 * (b / FULL)) + 256 * (b % FULL);
  }

  // ----- verification -----

  /** What the source tests: recompute and compare. */
  predicate Verifies(p: seq<byte>)
    requires HasHeader(p)
  {
    CheckSum(p) == Word(p, 5)
  }

  /** What RFC 1071 tests: the sum of the whole header is all ones. */
  predicate AllOnes(p: seq<byte>)
    requires HasHeader(p)
  {
    OnesSum(p, 2 * HeaderLength(p)) == FULL
  }

  /** The two tests agree on every header of legal length but the one kind whose
      stored checksum is 0xFFFF over a rest that sums to 0xFFFF as well; the
      checksum computed for that rest is 0x0000. */
  lemma TestsAgreeExactly(p: seq<byte>)
    requires HasHeader(p) && HeaderLength(p) >= 5
    ensures (Verifies(p) <==> AllOnes(p)) <==> !(Word(p, 5) == FULL && CheckSum(p) == 0)
    ensures Verifies(p) ==> AllOnes(p)
  {
    var n := 2 * HeaderLength(p);
    var rest, c := Rest(p), Word(p, 5);
    FoldIs(rest);
    FoldIsOnesSum(p, n);
    ModSum(rest, Fold(rest), c, c);
    FoldEqual(rest + c, Fold(rest) + c);
    FoldOnce(Fold(rest), c);
  }

  /** A header of illegal length is given 0xFFFF, whatever it holds. */
  lemma ShortHeader(p: seq<byte>)
    requires HasHeader(p) && HeaderLength(p) < 5
    ensures Verifies(p) <==> Word(p, 5) == FULL
  {
  }

  // ----- the two loops -----

  method CalculateCheckSum(header: array<byte>) returns (c: nat)
    requires HasHeader(header[..])
    ensures c == CheckSum(header[..])
  {
    var p := header[..];
    var length := HeaderLength(p);
    if length < 5 {
      return FULL;
    }
    var sum := 0;
    var i := 0;
    while i < length * 2
      invariant i <= 2 * length && sum == Sum(p, i)
    {
      sum := sum + (header[2 * i] as int + 256 * header[2 * i + 1] as int);
      i := i + 1;
    }
    SumHolds(p, 2 * length, 5);
    SumBound(p, 2 * length);
    assert sum < U32;
    sum := sum - (header[10] as int + 256 * header[11] as int);
    while sum / 0x1_0000 != 0
      invariant sum >= 0 && Fold(sum) == Fold(Rest(p))
      decreases sum
    {
      sum := sum / 0x1_0000 + sum % 0x1_0000;
    }
    return FULL - sum;
  }

  /** The 32-bit accumulator never overflows. */
  lemma {:induction false} SumBound(p: seq<byte>, n: nat)
    requires 2 * n <= |p|
    ensures Sum(p, n) <= n * FULL
  {
    if n > 0 { SumBound(p, n - 1); }
  }
}

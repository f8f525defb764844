/**
 The Adler-32 checksum (sections 2.2 and 8.2 of RFC 1950): the compressor takes remainders once per
 block of 5552 bytes, after a first block that is shorter or empty.
 */
module Adler {
  import opened Bits

  const BASE: nat := 65521

  /** The two sums after `k` bytes, by definition. */
  ghost function SumA(data: seq<byte>, k: nat): nat
    requires k <= |data|
  {
    if k == 0 then 1 else (SumA(data, k - 1) + data[k - 1]) % BASE
  }

  ghost function SumB(data: seq<byte>, k: nat): nat
    requires k <= |data|
  {
    if k == 0 then 0 else (SumB(data, k - 1) + SumA(data, k)) % BASE
  }

  /** The same without remainders: one more than the sum of the bytes, and the sum of these sums. */
  ghost function TotalA(data: seq<byte>, k: nat): nat
    requires k <= |data|
  {
    if k == 0 then 1 else TotalA(data, k - 1) + data[k - 1]
  }

  ghost function TotalB(data: seq<byte>, k: nat): nat
    requires k <= |data|
  {
    if k == 0 then 0 else TotalB(data, k - 1) + TotalA(data, k)
  }

  lemma {:induction false} SumsAre(data: seq<byte>, k: nat)
    requires k <= |data|
    ensures SumA(data, k) == TotalA(data, k) % 65521 && SumB(data, k) == TotalB(data, k) % 65521
  {
    if k > 0 {
      SumsAre(data, k - 1);
      StepA(data, k - 1, TotalA(data, k - 1));
      SumMod(TotalB(data, k - 1), TotalA(data, k));
      SumMod2(SumB(data, k - 1), TotalA(data, k));
    }
  }

  lemma SumMod2(a: nat, b: nat)
    ensures (a + b) % BASE == (a + b % BASE) % BASE
  {
    SumMod(b, a);
  }

  /** 0 + 1 + ... + n. */
  ghost function Triangle(n: nat): nat {
    if n == 0 then 0 else Triangle(n - 1) + n
  }

  lemma {:induction false} TriangleIs(n: nat)
    ensures 2 * Triangle(n) == n * (n + 1)
  {
    if n > 0 {
      TriangleIs(n - 1);
    }
  }

  lemma {:induction false} TriangleMonotone(m: nat, n: nat)
    requires m <= n
    ensures Triangle(m) <= Triangle(n)
  {
    if m < n {
      TriangleMonotone(m, n - 1);
    }
  }

  /** The largest second sum of one block still fits 32 bits. */
  lemma BlockFits(i: nat)
    requires i <= 5552
    ensures 65520 * (i + 1) + 255 * Triangle(i) < 0x1_0000_0000
  {
    TriangleMonotone(i, 5552);
    TriangleIs(5552);
  }

  lemma StepA(data: seq<byte>, k: nat, t: nat)
    requires k < |data| && t % BASE == SumA(data, k)
    ensures (t + data[k]) % BASE == SumA(data, k + 1)
  {
    SumMod(t, data[k]);
  }

  lemma StepB(data: seq<byte>, k: nat, t: nat, a: nat)
    requires k < |data| && t % BASE == SumB(data, k) && a % BASE == SumA(data, k + 1)
    ensures (t + a) % BASE == SumB(data, k + 1)
  {
    SumMod(t, a);
    SumMod(a, t % BASE);
  }

  lemma SumMod(t: nat, x: nat)
    ensures (t + x) % BASE == (t % BASE + x) % BASE
  {
  }

  /** The running sums of one block, without remainders. */
  method Block(data: seq<byte>, j: nat, blocklen: nat, s1: nat, s2: nat) returns (t1: nat, t2: nat)
    requires j + blocklen <= |data| && blocklen <= 5552
    requires s1 == SumA(data, j) < BASE && s2 == SumB(data, j) < BASE
    ensures t1 % BASE == SumA(data, j + blocklen) && t2 % BASE == SumB(data, j + blocklen)
    ensures t1 < 0x1_0000_0000 && t2 < 0x1_0000_0000
  {
    t1, t2 := s1, s2;
    for i := 0 to blocklen
      invariant t1 % BASE == SumA(data, j + i) && t2 % BASE == SumB(data, j + i)
      invariant t1 <= 65520 + 255 * i && t2 <= 65520 * (i + 1) + 255 * Triangle(i)
    {
      BlockFits(i + 1);
      StepA(data, j + i, t1);
      t1 := t1 + data[j + i];
      StepB(data, j + i, t2, t1);
      t2 := t2 + t1;
      assert t1 < 0x1_0000_0000 && t2 < 0x1_0000_0000;
    }
    BlockFits(blocklen);
  }

  /** The deferred remainders give the checksum of the definition. */
  method Checksum(data: seq<byte>) returns (s1: nat, s2: nat)
    ensures s1 == SumA(data, |data|) < BASE && s2 == SumB(data, |data|) < BASE
  {
    s1, s2 := 1, 0;
    var blocklen: nat, j: nat := |data| % 5552, 0;
    while j < |data|
      invariant j <= |data| && s1 == SumA(data, j) < BASE && s2 == SumB(data, j) < BASE
      invariant blocklen <= 5552 && (|data| - j) % 5552 == blocklen % 5552
      invariant j < |data| && blocklen != 5552 ==> j == 0
      decreases |data| - j, if blocklen == 5552 then 0 else 1
    {
      var t1, t2 := Block(data, j, blocklen, s1, s2);
      s1, s2 := t1 % BASE, t2 % BASE;
      j := j + blocklen;
      blocklen := 5552;
    }
  }
}

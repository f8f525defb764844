/**
 Bit streams as numbers. A stream is the natural number whose bit `i` is the `i`-th bit of the
 stream, so bits past the end of the data read as zeros. All operations are defined bit by bit.
 */
module Bits {

  type byte = x: int | 0 <= x < 256 witness 0

  /** `1 << n`. */
  function Pow2(n: nat): (r: nat)
    ensures r > 0
  {
    if n == 0 then 1 else 2 * Pow2(n - 1)
  }

  /** `v << n`. */
  function Shl(v: nat, n: nat): nat {
    if n == 0 then v else 2 * Shl(v, n - 1)
  }

  /** `v >> n`. */
  function Shr(v: nat, n: nat): nat
    decreases n
  {
    if n == 0 then v else Shr(v / 2, n - 1)
  }

  /** `v & ((1 << n) - 1)`. */
  function Low(v: nat, n: nat): nat
    decreases n
  {
    if n == 0 then 0 else v % 2 + 2 * Low(v / 2, n - 1)
  }

  /** The stream of the `n` lowest bits of `code` followed by `rest`. */
  function Put(code: nat, n: nat, rest: nat): nat
    decreases n
  {
    if n == 0 then rest else code % 2 + 2 * Put(code / 2, n - 1, rest)
  }

  lemma Pow2Table()
    ensures Pow2(0) == 1 && Pow2(1) == 2 && Pow2(2) == 4 && Pow2(3) == 8 && Pow2(4) == 16 && Pow2(5) == 32
    ensures Pow2(6) == 64 && Pow2(7) == 128 && Pow2(8) == 256 && Pow2(9) == 512 && Pow2(10) == 1024
    ensures Pow2(11) == 2048 && Pow2(12) == 4096 && Pow2(13) == 8192 && Pow2(14) == 16384
    ensures Pow2(15) == 32768 && Pow2(16) == 65536
  {
    assert Pow2(2) == 4;
    assert Pow2(4) == 16;
    assert Pow2(6) == 64;
    assert Pow2(8) == 256;
    assert Pow2(10) == 1024;
    assert Pow2(12) == 4096;
    assert Pow2(14) == 16384;
  }

  /******* Reading *******/

  lemma {:induction false} PutTake(code: nat, n: nat, rest: nat)
    ensures Low(Put(code, n, rest), n) == Low(code, n) && Shr(Put(code, n, rest), n) == rest
    decreases n
  {
    if n > 0 {
      PutTake(code / 2, n - 1, rest);
    }
  }

  lemma {:induction false} LowFits(v: nat, n: nat)
    requires v < Pow2(n)
    ensures Low(v, n) == v
    decreases n
  {
    if n > 0 {
      LowFits(v / 2, n - 1);
    }
  }

  lemma {:induction false} LowBound(v: nat, n: nat)
    ensures Low(v, n) < Pow2(n)
    decreases n
  {
    if n > 0 {
      LowBound(v / 2, n - 1);
    }
  }

  /** Within the first `n` bits, only they matter. */
  lemma {:induction false} PutLow(v: nat, n: nat, w: nat, m: nat)
    requires m <= n
    ensures Low(Put(v, n, w), m) == Low(v, m) && Shr(Put(v, n, w), m) == Put(Shr(v, m), n - m, w)
    decreases m
  {
    if m > 0 {
      PutLow(v / 2, n - 1, w, m - 1);
    }
  }

  lemma {:induction false} ShrShr(v: nat, m: nat, n: nat)
    ensures Shr(Shr(v, m), n) == Shr(v, m + n)
    decreases m
  {
    if m > 0 {
      ShrShr(v / 2, m - 1, n);
    }
  }

  lemma {:induction false} ShrLess(v: nat, n: nat)
    ensures Shr(v, n) <= v && (v > 0 && n > 0 ==> Shr(v, n) < v)
    decreases n
  {
    if n > 0 {
      ShrLess(v / 2, n - 1);
    }
  }

  /** The highest of the `n + 1` lowest bits. */
  lemma {:induction false} LowSnoc(v: nat, n: nat)
    ensures Low(v, n + 1) == Low(v, n) + Shl(Shr(v, n) % 2, n)
    decreases n
  {
    if n > 0 {
      LowSnoc(v / 2, n - 1);
    }
  }

  /******* Writing *******/

  /** Appending `n` bits to `len` bits. */
  lemma {:induction false} PutAfter(w: nat, len: nat, code: nat, n: nat, rest: nat)
    requires w < Pow2(len)
    ensures Put(w + Shl(code, len), len + n, rest) == Put(w, len, Put(code, n, rest))
    decreases len
  {
    if len > 0 {
      PutAfter(w / 2, len - 1, code, n, rest);
      var v := w + Shl(code, len);
      assert v % 2 == w % 2 && v / 2 == w / 2 + Shl(code, len - 1);
    }
  }

  lemma {:induction false} AppendFits(w: nat, len: nat, code: nat, n: nat)
    requires w < Pow2(len) && code < Pow2(n)
    ensures w + Shl(code, len) < Pow2(len + n)
    decreases len
  {
    if len > 0 {
      AppendFits(w / 2, len - 1, code, n);
    }
  }

  lemma {:induction false} PutFits(v: nat, n: nat)
    requires v < Pow2(n)
    ensures Put(v, n, 0) == v
    decreases n
  {
    if n > 0 {
      PutFits(v / 2, n - 1);
    }
  }

  lemma {:induction false} PutPut(a: nat, m: nat, b: nat, n: nat, rest: nat)
    ensures Put(Put(a, m, b), m + n, rest) == Put(a, m, Put(b, n, rest))
    decreases m
  {
    if m > 0 {
      PutPut(a / 2, m - 1, b, n, rest);
    }
  }

  /******* Bytes *******/

  /** A string of `w`-bit units as a stream. */
  ghost function Units(bs: seq<byte>, w: nat): nat {
    if bs == [] then 0 else Put(bs[0], w, Units(bs[1..], w))
  }

  ghost function Width(bs: seq<byte>, w: nat): nat {
    if bs == [] then 0 else w + Width(bs[1..], w)
  }

  lemma {:induction false} UnitsConcat(a: seq<byte>, b: seq<byte>, w: nat)
    ensures Units(a + b, w) == Put(Units(a, w), Width(a, w), Units(b, w))
  {
    if a == [] {
      assert a + b == b;
    } else {
      assert (a + b)[1..] == a[1..] + b;
      UnitsConcat(a[1..], b, w);
      PutPut(a[0], w, Units(a[1..], w), Width(a[1..], w), Units(b, w));
    }
  }

  lemma {:induction false} WidthOfBytes(bs: seq<byte>)
    ensures Width(bs, 8) == 8 * |bs|
  {
    if bs != [] {
      WidthOfBytes(bs[1..]);
    }
  }

  /** A byte string as a stream. */
  ghost function Little(bs: seq<byte>): nat {
    Units(bs, 8)
  }

  lemma LittleConcat(a: seq<byte>, b: seq<byte>)
    ensures Little(a + b) == Put(Little(a), 8 * |a|, Little(b))
  {
    UnitsConcat(a, b, 8);
    WidthOfBytes(a);
  }

  /******* Reversal *******/

  /** The lowest `n` bits of `v` in the opposite order. */
  function Rev(v: nat, n: nat): nat {
    if n == 0 then 0 else 2 * Rev(v, n - 1) + Shr(v, n - 1) % 2
  }

  lemma {:induction false} RevBound(v: nat, n: nat)
    ensures Rev(v, n) < Pow2(n)
  {
    if n > 0 {
      RevBound(v, n - 1);
    }
  }

  /** Reversal from the lowest bit. */
  lemma {:induction false} RevCons(v: nat, n: nat)
    requires n > 0
    ensures Rev(v, n) == Shl(v % 2, n - 1) + Rev(v / 2, n - 1)
  {
    if n > 1 {
      RevCons(v, n - 1);
    }
  }

  /** The top `n` bits of a longer reversal are the shorter reversal. */
  lemma {:induction false} RevTop(v: nat, n: nat, m: nat)
    requires n <= m
    ensures Shr(Rev(v, m), m - n) == Rev(v, n)
    decreases m - n
  {
    if n < m {
      RevTop(v, n, m - 1);
      assert Rev(v, m) / 2 == Rev(v, m - 1);
    }
  }

  /** Reversing twice gives the low bits back. */
  lemma {:induction false} RevRev(v: nat, n: nat)
    ensures Rev(Rev(v, n), n) == Low(v, n)
  {
    if n > 0 {
      RevRev(v, n - 1);
      RevCons(Rev(v, n), n);
      LowSnoc(v, n - 1);
    }
  }

  /** Only the low `n` bits matter. */
  lemma {:induction false} RevLow(v: nat, n: nat)
    ensures Rev(Low(v, n), n) == Rev(v, n)
    decreases n
  {
    if n > 0 {
      RevLow(v / 2, n - 1);
      RevCons(v, n);
      RevCons(Low(v, n), n);
    }
  }

  /** A stream starts with a reversed code exactly if its reversed start is the code. */
  lemma StartsWith(v: nat, code: nat, n: nat)
    requires code < Pow2(n)
    ensures Low(v, n) == Rev(code, n) <==> Rev(v, n) == code
  {
    RevRev(v, n);
    RevRev(code, n);
    RevLow(v, n);
    LowFits(code, n);
  }

  /******* Shifted comparisons *******/

  /** `k >> n` is `a` exactly if `k` is in the interval of numbers that start with `a`. */
  lemma {:induction false} ShrInterval(k: nat, n: nat, a: nat)
    ensures Shr(k, n) < a <==> k < Shl(a, n)
    decreases n
  {
    if n > 0 {
      ShrInterval(k / 2, n - 1, a);
    }
  }

  lemma {:induction false} ShlMonotone(a: nat, b: nat, n: nat)
    ensures a <= b <==> Shl(a, n) <= Shl(b, n)
  {
    if n > 0 {
      ShlMonotone(a, b, n - 1);
    }
  }

  lemma {:induction false} ShlDouble(a: nat, n: nat)
    ensures Shl(2 * a, n) == Shl(a, n + 1)
  {
    if n > 0 {
      ShlDouble(a, n - 1);
    }
  }

  lemma {:induction false} ShlPow2(m: nat, n: nat)
    ensures Shl(Pow2(m), n) == Pow2(m + n)
  {
    if n > 0 {
      ShlPow2(m, n - 1);
    }
  }

  /******* Exclusive or *******/

  /** Exclusive or, bit by bit. */
  function Xor(a: nat, b: nat): (r: nat)
    decreases a + b
  {
    if a == 0 then b else if b == 0 then a
    else 2 * Xor(a / 2, b / 2) + (if a % 2 == b % 2 then 0 else 1)
  }

  /** Bit by bit, one where exactly one of the two is one. */
  lemma {:induction false} XorAt(a: nat, b: nat, k: nat)
    ensures Shr(Xor(a, b), k) % 2 == (Shr(a, k) + Shr(b, k)) % 2
  {
    if k > 0 {
      XorUnfold(a, b);
      XorAt(a / 2, b / 2, k - 1);
    }
  }

  lemma {:induction false} XorBound(a: nat, b: nat, n: nat)
    requires a < Pow2(n) && b < Pow2(n)
    ensures Xor(a, b) < Pow2(n)
  {
    if a > 0 && b > 0 {
      XorBound(a / 2, b / 2, n - 1);
    }
  }

  lemma {:induction false} XorCommutes(a: nat, b: nat)
    ensures Xor(a, b) == Xor(b, a)
    decreases a + b
  {
    if a > 0 && b > 0 {
      XorCommutes(a / 2, b / 2);
    }
  }

  lemma {:induction false} XorInjective(a: nat, b: nat, c: nat)
    requires Xor(a, c) == Xor(b, c)
    ensures a == b
    decreases a + b + c
  {
    if c > 0 {
      XorUnfold(a, c);
      XorUnfold(b, c);
      XorInjective(a / 2, b / 2, c / 2);
    }
  }

  lemma XorUnfold(a: nat, b: nat)
    ensures Xor(a, b) / 2 == Xor(a / 2, b / 2)
    ensures Xor(a, b) % 2 == if a % 2 == b % 2 then 0 else 1
  {
  }
}

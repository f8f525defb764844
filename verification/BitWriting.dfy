/**
 The bit writer of the zlib compressor: codes go into a bit buffer, and full bytes into the output.
 */
module BitWriting {
  import opened Bits
  import opened Huffman
  import opened Deflate
  import Inflate

  /******* The bit writer *******/

  lemma {:induction false} PutSplit(v: nat, n: nat, m: nat, rest: nat)
    requires m <= n
    ensures Put(v, n, rest) == Put(Low(v, m), m, Put(Shr(v, m), n - m, rest))
    decreases m
  {
    if m > 0 {
      PutSplit(v / 2, n - 1, m - 1, rest);
    }
  }

  /** A finished unit moves from the bit buffer into the output. */
  lemma UnitMoves(body: nat, len: nat, buf: nat, count: nat, w: nat, rest: nat)
    requires w <= count
    ensures Put(Put(body, len, Put(Low(buf, w), w, 0)), len + w, Put(Shr(buf, w), count - w, rest)) ==
            Put(body, len, Put(buf, count, rest))
  {
    var next := Put(Shr(buf, w), count - w, rest);
    PutPut(body, len, Put(Low(buf, w), w, 0), w, next);
    PutPut(Low(buf, w), w, 0, 0, next);
    PutSplit(buf, count, w, rest);
  }

  lemma UnitsOne(b: byte, w: nat)
    ensures Units([b], w) == Put(b, w, 0)
  {
    assert [b][1..] == [];
  }

  lemma LittleOne(body: seq<byte>, b: byte)
    ensures Little(body + [b]) == Put(Little(body), 8 * |body|, Put(b, 8, 0))
  {
    LittleConcat(body, [b]);
    UnitsOne(b, 8);
  }

  lemma UnitAppended(body: nat, len: nat, now: nat, more: nat, b: nat, buf: nat, count: nat, w: nat, rest: nat)
    requires w <= count && b == Low(buf, w) && now == Put(body, len, Put(b, w, 0)) && more == len + w
    ensures Put(now, more, Put(Shr(buf, w), count - w, rest)) == Put(body, len, Put(buf, count, rest))
  {
    UnitMoves(body, len, buf, count, w, rest);
  }

  lemma ByteMoves(body: seq<byte>, b: byte, buf: nat, count: nat, rest: nat)
    requires count >= 8 && b == Low(buf, 8)
    ensures Put(Little(body + [b]), 8 * |body + [b]|, Put(Shr(buf, 8), count - 8, rest)) ==
            Put(Little(body), 8 * |body|, Put(buf, count, rest))
  {
    LittleOne(body, b);
    UnitAppended(Little(body), 8 * |body|, Little(body + [b]), 8 * |body + [b]|, b, buf, count, 8, rest);
  }

  class BitWriter {
    /** The output, whose first two bytes are the zlib header. */
    var out: seq<byte>
    var bitbuf: nat
    var bitcount: nat

    ghost predicate Valid()
      reads this
    {
      |out| >= 2 && bitcount < 8 && bitbuf < Pow2(bitcount)
    }

    /** The stream after the header, if `rest` is what is written next. */
    ghost function With(rest: nat): nat
      reads this
      requires |out| >= 2
    {
      Put(Little(out[2..]), 8 * |out[2..]|, Put(bitbuf, bitcount, rest))
    }

    constructor ()
      ensures Valid() && out == [0x78, 0x5e] && bitcount == 0 && bitbuf == 0
    {
      out := [0x78, 0x5e];
      bitbuf, bitcount := 0, 0;
    }

    /** One byte leaves the bit buffer. */
    method FlushByte()
      requires |out| >= 2 && bitbuf < Pow2(bitcount) && bitcount >= 8
      modifies this
      ensures bitcount == old(bitcount) - 8 && bitbuf < Pow2(bitcount) && |out| >= 2 && old(out) <= out
      ensures forall rest: nat :: With(rest) == old(With(rest))
    {
      ghost var body, buf, count := out[2..], bitbuf, bitcount;
      LowBound(bitbuf, 8);
      Pow2Table();
      var b: byte := Low(bitbuf, 8);
      Inflate.ShrFits(bitbuf, bitcount, 8);
      out := out + [b];
      bitbuf := Shr(bitbuf, 8);
      bitcount := bitcount - 8;
      assert out[2..] == body + [b];
      forall rest: nat
        ensures With(rest) == Put(Little(body), 8 * |body|, Put(buf, count, rest))
      {
        ByteMoves(body, b, buf, count, rest);
      }
    }

    /** `stbiw__zlib_flushf`. */
    method Flush()
      requires |out| >= 2 && bitbuf < Pow2(bitcount)
      modifies this
      ensures Valid() && bitcount == old(bitcount) % 8 && old(out) <= out
      ensures forall rest: nat :: With(rest) == old(With(rest))
    {
      while bitcount >= 8
        invariant |out| >= 2 && bitbuf < Pow2(bitcount) && bitcount % 8 == old(bitcount) % 8 && old(out) <= out
        invariant forall rest: nat :: With(rest) == old(With(rest))
        decreases bitcount
      {
        FlushByte();
      }
    }

    /** `stbiw__zlib_add`. The bit buffer holds at most 23 bits, so it never overflows 32 bits. */
    method Add(code: nat, codebits: nat)
      requires Valid() && codebits <= 16 && code < Pow2(codebits)
      modifies this
      ensures Valid() && bitcount == (old(bitcount) + codebits) % 8 && old(out) <= out
      ensures forall rest: nat :: With(rest) == old(With(Put(code, codebits, rest)))
    {
      AppendFits(bitbuf, bitcount, code, codebits);
      forall rest: nat
        ensures Put(bitbuf + Shl(code, bitcount), bitcount + codebits, rest)
                == Put(bitbuf, bitcount, Put(code, codebits, rest))
      {
        PutAfter(bitbuf, bitcount, code, codebits, rest);
      }
      bitbuf := bitbuf + Shl(code, bitcount);
      bitcount := bitcount + codebits;
      Flush();
    }

    /** `stbiw__zlib_bitrev`. */
    static method BitRev(code: nat, codebits: nat) returns (res: nat)
      ensures res == Rev(code, codebits)
    {
      res := 0;
      var c := code;
      for i := 0 to codebits
        invariant res == Rev(code, i) && c == Shr(code, i)
      {
        ShrShr(code, i, 1);
        res := 2 * res + c % 2;
        c := c / 2;
      }
    }

    /** `stbiw__zlib_huffa`: a code, most significant bit first. */
    method AddCode(code: nat, codebits: nat)
      requires Valid() && codebits <= 16
      modifies this
      ensures Valid() && old(out) <= out
      ensures forall rest: nat :: With(rest) == old(With(Put(Rev(code, codebits), codebits, rest)))
    {
      RevBound(code, codebits);
      var r := BitRev(code, codebits);
      Add(r, codebits);
    }

    /** `stbiw__zlib_huff`: a symbol of the fixed code. */
    method AddSymbol(n: nat)
      requires Valid() && n < 288
      modifies this
      ensures Valid() && old(out) <= out
      ensures forall rest: nat :: With(rest) == old(With(PutSymbol(FixedLengths(), n, rest)))
    {
      var code, codebits := SymbolCode(n);
      AddCode(code, codebits);
    }

    /** The code that `stbiw__zlib_huff` picks by the range of the symbol. */
    static method SymbolCode(n: nat) returns (code: nat, codebits: nat)
      requires n < 288
      ensures code == Code(FixedLengths(), n) && codebits == FixedLengths()[n] <= 9
    {
      FixedCode(n);
      if n <= 143 {
        return 0x30 + n, 8;
      } else if n <= 255 {
        return 0x190 + n - 144, 9;
      } else if n <= 279 {
        return n - 256, 7;
      } else {
        return 0xc0 + n - 280, 8;
      }
    }

    /** The length and distance codes of a match. */
    method AddMatch(best: nat, d: nat) returns (ghost j: nat, ghost k: nat)
      requires Valid() && 3 <= best <= 258 && 1 <= d <= 32767
      modifies this
      ensures Valid() && old(out) <= out && LengthIndex(best, j) && DistIndex(d, k)
      ensures forall rest: nat :: With(rest) == old(With(MatchStream(best, d, j, k, rest)))
    {
      j := AddLength(best);
      k := AddDist(d);
    }

    method AddLength(best: nat) returns (ghost j: nat)
      requires Valid() && 3 <= best <= 258
      modifies this
      ensures Valid() && old(out) <= out && LengthIndex(best, j)
      ensures forall rest: nat ::
                With(rest) == old(With(PutSymbol(FixedLengths(), 257 + j, PutLength(best, j, rest))))
    {
      var l, x, eb := SearchLength(best);
      AddSymbolExtra(257 + l, x, eb);
      j := l;
    }

    method AddDist(d: nat) returns (ghost k: nat)
      requires Valid() && 1 <= d <= 32767
      modifies this
      ensures Valid() && old(out) <= out && DistIndex(d, k)
      ensures forall rest: nat ::
                With(rest) == old(With(PutSymbol(FixedDistances(), k, PutDistance(d, k, rest))))
    {
      var e, x, eb := SearchDist(d);
      AddDistanceExtra(e, x, eb);
      k := e;
    }

    /** The code of a length, and what its extra bits say. */
    static method SearchLength(best: nat) returns (j: nat, x: nat, eb: nat)
      requires 3 <= best <= 258
      ensures LengthIndex(best, j) && x == best - LENGTHC[j] && eb == LENGTHEB[j]
      ensures x < Pow2(eb) && eb <= 5
    {
      j := 0;
      while best > LENGTHC[j + 1] - 1
        invariant j < 29 && LENGTHC[j] <= best
        decreases 29 - j
      {
        j := j + 1;
      }
      LengthCodes(j);
      x, eb := best - LENGTHC[j], LENGTHEB[j];
    }

    static method SearchDist(d: nat) returns (j: nat, x: nat, eb: nat)
      requires 1 <= d <= 32767
      ensures DistIndex(d, j) && x == d - DISTC[j] && eb == DISTEB[j]
      ensures x < Pow2(eb) && eb <= 13
    {
      j := 0;
      while d > DISTC[j + 1] - 1
        invariant j < 30 && DISTC[j] <= d
        decreases 30 - j
      {
        j := j + 1;
      }
      DistCodes(j);
      x, eb := d - DISTC[j], DISTEB[j];
    }

    method AddSymbolExtra(n: nat, x: nat, eb: nat)
      requires Valid() && n < 288 && eb <= 16 && x < Pow2(eb)
      modifies this
      ensures Valid() && old(out) <= out
      ensures forall rest: nat :: With(rest) == old(With(PutSymbol(FixedLengths(), n, Put(x, eb, rest))))
    {
      AddSymbol(n);
      AddExtra(x, eb);
    }

    method AddDistanceExtra(e: nat, x: nat, eb: nat)
      requires Valid() && e < 30 && eb <= 16 && x < Pow2(eb)
      modifies this
      ensures Valid() && old(out) <= out
      ensures forall rest: nat :: With(rest) == old(With(PutSymbol(FixedDistances(), e, Put(x, eb, rest))))
    {
      AddDistance(e);
      AddExtra(x, eb);
    }

    method AddExtra(x: nat, eb: nat)
      requires Valid() && eb <= 16 && x < Pow2(eb)
      modifies this
      ensures Valid() && old(out) <= out
      ensures forall rest: nat :: With(rest) == old(With(Put(x, eb, rest)))
    {
      if eb != 0 {
        Add(x, eb);
      }
    }

    method AddDistance(e: nat)
      requires Valid() && e < 30
      modifies this
      ensures Valid() && old(out) <= out
      ensures forall rest: nat :: With(rest) == old(With(PutSymbol(FixedDistances(), e, rest)))
    {
      FiveCode(e);
      var codebits := 5;
      AddCode(e, codebits);
    }

    /** Pads with zero bits to a byte boundary. */
    method Pad() returns (ghost m: nat)
      requires Valid()
      modifies this
      ensures Valid() && bitcount == 0 && old(out) <= out
      ensures m == if old(bitcount) == 0 then 0 else 8 - old(bitcount)
      ensures forall rest: nat :: With(rest) == old(With(Put(0, m, rest)))
    {
      m := 0;
      while bitcount != 0
        invariant Valid() && old(out) <= out
        invariant if old(bitcount) == 0 then m == 0 else old(bitcount) + m <= 8
        invariant bitcount == if old(bitcount) + m == 8 then 0 else old(bitcount) + m
        invariant forall rest: nat :: With(rest) == old(With(Put(0, m, rest)))
        decreases if bitcount == 0 then 0 else 8 - bitcount
      {
        ghost var n := m + 1;
        label Before:
        PadBit();
        forall rest: nat
          ensures With(rest) == old(With(Put(0, n, rest)))
        {
          assert With(rest) == old@Before(With(Put(0, 1, rest)));
          PutZeros(m, rest);
        }
        m := n;
      }
    }

    /** One zero bit. */
    method PadBit()
      requires Valid()
      modifies this
      ensures Valid() && bitcount == (if old(bitcount) == 7 then 0 else old(bitcount) + 1) && old(out) <= out
      ensures forall rest: nat :: With(rest) == old(With(Put(0, 1, rest)))
    {
      ZeroFits(1);
      Add(0, 1);
    }
  }

  lemma ZeroFits(n: nat)
    ensures 0 < Pow2(n)
  {
  }

  lemma {:induction false} PutZeros(m: nat, rest: nat)
    ensures Put(0, m + 1, rest) == Put(0, m, Put(0, 1, rest))
  {
    if m > 0 {
      PutZeros(m - 1, rest);
    }
  }
}

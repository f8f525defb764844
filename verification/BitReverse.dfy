/** The reversal of 16 bits by masks and shifts is the reversal bit by bit. */
module BitReverse {
  import opened Bits

  function SwapBits(n: bv16): bv16 {
    ((n & 0xAAAA) >> 1) | ((n & 0x5555) << 1)
  }

  function SwapPairs(n: bv16): bv16 {
    ((n & 0xCCCC) >> 2) | ((n & 0x3333) << 2)
  }

  function SwapNibbles(n: bv16): bv16 {
    ((n & 0xF0F0) >> 4) | ((n & 0x0F0F) << 4)
  }

  function SwapBytes(n: bv16): bv16 {
    ((n & 0xFF00) >> 8) | ((n & 0x00FF) << 8)
  }

  /** `stbi__bitreverse16`. */
  function BitReverse16(n: bv16): bv16 {
    SwapBytes(SwapNibbles(SwapPairs(SwapBits(n))))
  }

  /** Bit `i` of a word. */
  function BitOf(v: bv16, i: nat): bool
    requires i < 16
  {
    if i == 0 then v & 0x1 != 0
    else if i == 1 then v & 0x2 != 0
    else if i == 2 then v & 0x4 != 0
    else if i == 3 then v & 0x8 != 0
    else if i == 4 then v & 0x10 != 0
    else if i == 5 then v & 0x20 != 0
    else if i == 6 then v & 0x40 != 0
    else if i == 7 then v & 0x80 != 0
    else if i == 8 then v & 0x100 != 0
    else if i == 9 then v & 0x200 != 0
    else if i == 10 then v & 0x400 != 0
    else if i == 11 then v & 0x800 != 0
    else if i == 12 then v & 0x1000 != 0
    else if i == 13 then v & 0x2000 != 0
    else if i == 14 then v & 0x4000 != 0
    else v & 0x8000 != 0
  }

  /** The bits of a word, least significant first. */
  function BitList(v: bv16): (r: seq<bool>)
    ensures |r| == 16 && forall i | 0 <= i < 16 :: r[i] == BitOf(v, i)
  {
    seq(16, i requires 0 <= i < 16 => BitOf(v, i))
  }

  /** The number with the given bits. */
  function FromBits(bs: seq<bool>): nat {
    if bs == [] then 0 else (if bs[0] then 1 else 0) + 2 * FromBits(bs[1..])
  }

  function Reverse(bs: seq<bool>): (r: seq<bool>)
    ensures |r| == |bs| && forall i | 0 <= i < |bs| :: r[i] == bs[|bs| - 1 - i]
  {
    seq(|bs|, i requires 0 <= i < |bs| => bs[|bs| - 1 - i])
  }

  lemma LowWord(v: bv16)
    ensures BitReverse16(v) & 0x1 != 0 <==> v & 0x8000 != 0
    ensures BitReverse16(v) & 0x2 != 0 <==> v & 0x4000 != 0
    ensures BitReverse16(v) & 0x4 != 0 <==> v & 0x2000 != 0
    ensures BitReverse16(v) & 0x8 != 0 <==> v & 0x1000 != 0
    ensures BitReverse16(v) & 0x10 != 0 <==> v & 0x800 != 0
    ensures BitReverse16(v) & 0x20 != 0 <==> v & 0x400 != 0
    ensures BitReverse16(v) & 0x40 != 0 <==> v & 0x200 != 0
    ensures BitReverse16(v) & 0x80 != 0 <==> v & 0x100 != 0
  {
  }

  lemma HighWord(v: bv16)
    ensures BitReverse16(v) & 0x100 != 0 <==> v & 0x80 != 0
    ensures BitReverse16(v) & 0x200 != 0 <==> v & 0x40 != 0
    ensures BitReverse16(v) & 0x400 != 0 <==> v & 0x20 != 0
    ensures BitReverse16(v) & 0x800 != 0 <==> v & 0x10 != 0
    ensures BitReverse16(v) & 0x1000 != 0 <==> v & 0x8 != 0
    ensures BitReverse16(v) & 0x2000 != 0 <==> v & 0x4 != 0
    ensures BitReverse16(v) & 0x4000 != 0 <==> v & 0x2 != 0
    ensures BitReverse16(v) & 0x8000 != 0 <==> v & 0x1 != 0
  {
  }

  lemma ReversedBit(v: bv16, i: nat)
    requires i < 16
    ensures BitOf(BitReverse16(v), i) == BitOf(v, 15 - i)
  {
    if i < 8 {
      LowWord(v);
    } else {
      HighWord(v);
    }
  }

  lemma ReversedList(v: bv16)
    ensures BitList(BitReverse16(v)) == Reverse(BitList(v))
  {
    forall i | 0 <= i < 16
      ensures BitList(BitReverse16(v))[i] == Reverse(BitList(v))[i]
    {
      ReversedBit(v, i);
    }
  }

  lemma Half(bs: seq<bool>)
    requires bs != []
    ensures FromBits(bs) / 2 == FromBits(bs[1..]) && FromBits(bs) % 2 == if bs[0] then 1 else 0
  {
  }

  lemma {:induction false} BitAt(bs: seq<bool>, k: nat)
    requires k < |bs|
    ensures Shr(FromBits(bs), k) % 2 == if bs[k] then 1 else 0
  {
    Half(bs);
    if k > 0 {
      BitAt(bs[1..], k - 1);
      assert Shr(FromBits(bs), k) == Shr(FromBits(bs) / 2, k - 1);
    }
  }

  lemma {:induction false} RevFromBits(bs: seq<bool>, n: nat)
    requires n <= |bs|
    ensures Rev(FromBits(bs), n) == FromBits(Reverse(bs[..n]))
  {
    if n > 0 {
      RevFromBits(bs, n - 1);
      BitAt(bs, n - 1);
      assert Reverse(bs[..n])[1..] == Reverse(bs[..n - 1]);
    }
  }

  /** On the number that a word stands for, the masks and shifts compute the reversal. */
  lemma BitReverse16Reverses(v: bv16)
    ensures FromBits(BitList(BitReverse16(v))) == Rev(FromBits(BitList(v)), 16)
  {
    ReversedList(v);
    RevFromBits(BitList(v), |BitList(v)|);
    assert BitList(v)[..|BitList(v)|] == BitList(v);
  }
}

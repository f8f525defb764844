/**
 The part of the DEFLATE format (sections 3.2.5 and 3.2.6 of RFC 1951) that the compressor and the
 decoder share: LZ77 tokens, the length and distance tables, the fixed codes, and the bit stream of
 a block.
 */
module Deflate {
  import opened Bits
  import opened Huffman

  /******* Tokens *******/

  datatype Token = Literal(value: byte) | Match(len: nat, dist: nat)

  /** Copies `len` bytes from `dist` back, one by one, so a copy may overlap itself. */
  ghost function Copy(out: seq<byte>, len: nat, dist: nat): seq<byte>
    requires 1 <= dist <= |out|
    decreases len
  {
    if len == 0 then out else Copy(out + [out[|out| - dist]], len - 1, dist)
  }

  ghost predicate TokenOk(out: seq<byte>, t: Token) {
    t.Match? ==> 3 <= t.len <= 258 && 1 <= t.dist <= 32767 && t.dist <= |out|
  }

  ghost function Apply(out: seq<byte>, t: Token): seq<byte>
    requires TokenOk(out, t)
  {
    match t
    case Literal(b) => out + [b]
    case Match(len, dist) => Copy(out, len, dist)
  }

  ghost predicate TokensOk(out: seq<byte>, ts: seq<Token>)
    decreases |ts|
  {
    ts != [] ==> TokenOk(out, ts[0]) && TokensOk(Apply(out, ts[0]), ts[1..])
  }

  ghost function Expand(out: seq<byte>, ts: seq<Token>): seq<byte>
    requires TokensOk(out, ts)
    decreases |ts|
  {
    if ts == [] then out else Expand(Apply(out, ts[0]), ts[1..])
  }

  lemma {:induction false} CopyGrows(out: seq<byte>, len: nat, dist: nat)
    requires 1 <= dist <= |out|
    ensures |Copy(out, len, dist)| == |out| + len && out <= Copy(out, len, dist)
    decreases len
  {
    if len > 0 {
      CopyGrows(out + [out[|out| - dist]], len - 1, dist);
    }
  }

  lemma {:induction false} ExpandGrows(out: seq<byte>, ts: seq<Token>)
    requires TokensOk(out, ts)
    ensures |out| <= |Expand(out, ts)|
    decreases |ts|
  {
    if ts != [] {
      if ts[0].Match? {
        CopyGrows(out, ts[0].len, ts[0].dist);
      }
      ExpandGrows(Apply(out, ts[0]), ts[1..]);
    }
  }

  /** Every new byte is the one `dist` before it. */
  lemma {:induction false} CopyAt(out: seq<byte>, len: nat, dist: nat, k: nat)
    requires 1 <= dist <= |out| && |out| <= k < |out| + len
    ensures |Copy(out, len, dist)| == |out| + len && Copy(out, len, dist)[k] == Copy(out, len, dist)[k - dist]
    decreases len
  {
    var more := out + [out[|out| - dist]];
    CopyGrows(out, len, dist);
    CopyGrows(more, len - 1, dist);
    if k > |out| {
      CopyAt(more, len - 1, dist, k);
    } else {
      assert more <= Copy(out, len, dist);
      assert Copy(out, len, dist)[k] == more[k] && Copy(out, len, dist)[k - dist] == more[k - dist];
    }
  }

  lemma {:induction false} ExpandSnoc(out: seq<byte>, ts: seq<Token>, t: Token)
    requires TokensOk(out, ts) && TokenOk(Expand(out, ts), t)
    ensures TokensOk(out, ts + [t]) && Expand(out, ts + [t]) == Apply(Expand(out, ts), t)
    decreases |ts|
  {
    if ts == [] {
      assert [t][1..] == [];
      assert ts + [t] == [t];
    } else {
      ExpandSnoc(Apply(out, ts[0]), ts[1..], t);
      assert (ts + [t])[1..] == ts[1..] + [t];
    }
  }

  /** A copy of a repeat continues the text: what a match of `len` bytes at distance `dist` stands for. */
  lemma {:induction false} CopyRepeats(data: seq<byte>, i: nat, len: nat, dist: nat)
    requires 1 <= dist <= i && i + len <= |data|
    requires forall p | i <= p < i + len :: data[p] == data[p - dist]
    ensures Copy(data[..i], len, dist) == data[..i + len]
    decreases len
  {
    if len > 0 {
      assert data[..i] + [data[i]] == data[..i + 1];
      CopyRepeats(data, i + 1, len - 1, dist);
    }
  }

  /******* Length and distance tables *******/

  const LENGTH_BASE: seq<nat> := [3, 4, 5, 6, 7, 8, 9, 10, 11, 13, 15, 17, 19, 23, 27, 31, 35, 43, 51, 59, 67, 83, 99,
                                  115, 131, 163, 195, 227, 258, 0, 0]
  const LENGTH_EXTRA: seq<nat> := [0, 0, 0, 0, 0, 0, 0, 0, 1, 1, 1, 1, 2, 2, 2, 2, 3, 3, 3, 3, 4, 4, 4, 4, 5, 5, 5, 5,
                                   0, 0, 0]
  const DIST_BASE: seq<nat> := [1, 2, 3, 4, 5, 7, 9, 13, 17, 25, 33, 49, 65, 97, 129, 193, 257, 385, 513, 769, 1025,
                                1537, 2049, 3073, 4097, 6145, 8193, 12289, 16385, 24577, 0, 0]
  const DIST_EXTRA: seq<nat> := [0, 0, 0, 0, 1, 1, 2, 2, 3, 3, 4, 4, 5, 5, 6, 6, 7, 7, 8, 8, 9, 9, 10, 10, 11, 11, 12,
                                 12, 13, 13, 0, 0]

  /** The compressor's tables, each with one entry past the last code. */
  const LENGTHC: seq<nat> := [3, 4, 5, 6, 7, 8, 9, 10, 11, 13, 15, 17, 19, 23, 27, 31, 35, 43, 51, 59, 67, 83, 99, 115,
                              131, 163, 195, 227, 258, 259]
  const LENGTHEB: seq<nat> := [0, 0, 0, 0, 0, 0, 0, 0, 1, 1, 1, 1, 2, 2, 2, 2, 3, 3, 3, 3, 4, 4, 4, 4, 5, 5, 5, 5, 0]
  const DISTC: seq<nat> := [1, 2, 3, 4, 5, 7, 9, 13, 17, 25, 33, 49, 65, 97, 129, 193, 257, 385, 513, 769, 1025, 1537,
                            2049, 3073, 4097, 6145, 8193, 12289, 16385, 24577, 32768]
  const DISTEB: seq<nat> := [0, 0, 0, 0, 1, 1, 2, 2, 3, 3, 4, 4, 5, 5, 6, 6, 7, 7, 8, 8, 9, 9, 10, 10, 11, 11, 12, 12,
                             13, 13]

  /** The tables by the rule of section 3.2.5 of RFC 1951: lengths start at 3 and distances at 1, each code takes up
      where the one before it ends, every four length codes and every two distance codes have one more extra
      bit, and the last length code stands for 258. */
  lemma LengthRule(j: nat)
    requires j < 28
    ensures |LENGTH_BASE| == |LENGTH_EXTRA| == 31 && LENGTH_BASE[0] == 3
    ensures LENGTH_EXTRA[j] == if j < 8 then 0 else j / 4 - 1
    ensures j < 27 ==> LENGTH_BASE[j + 1] == LENGTH_BASE[j] + Pow2(LENGTH_EXTRA[j])
    ensures LENGTH_BASE[28] == 258 && LENGTH_EXTRA[28] == 0
  {
    Pow2Table();
  }

  lemma DistRule(k: nat)
    requires k < 30
    ensures |DIST_BASE| == |DIST_EXTRA| == 32 && DIST_BASE[0] == 1
    ensures DIST_EXTRA[k] == if k < 4 then 0 else k / 2 - 1
    ensures k < 29 ==> DIST_BASE[k + 1] == DIST_BASE[k] + Pow2(DIST_EXTRA[k])
  {
    Pow2Table();
  }

  /** The extra bits of each code reach up to the next code. */
  lemma LengthCodes(j: nat)
    requires j < 29
    ensures |LENGTHC| == 30 && |LENGTHEB| == 29 && |LENGTH_BASE| == 31 && |LENGTH_EXTRA| == 31
    ensures LENGTH_BASE[j] == LENGTHC[j] < LENGTHC[j + 1] <= LENGTHC[j] + Pow2(LENGTHEB[j])
    ensures LENGTH_EXTRA[j] == LENGTHEB[j] <= 5
  {
    Pow2Table();
  }

  lemma DistCodes(j: nat)
    requires j < 30
    ensures |DISTC| == 31 && |DISTEB| == 30 && |DIST_BASE| == 32 && |DIST_EXTRA| == 32
    ensures DIST_BASE[j] == DISTC[j] < DISTC[j + 1] <= DISTC[j] + Pow2(DISTEB[j])
    ensures DIST_EXTRA[j] == DISTEB[j] <= 13
  {
    Pow2Table();
  }

  /** The code whose range holds `x`: where the compressor's search stops. */
  ghost predicate LengthIndex(len: nat, j: nat) {
    j < 29 && LENGTHC[j] <= len < LENGTHC[j + 1]
  }

  ghost predicate DistIndex(dist: nat, j: nat) {
    j < 30 && DISTC[j] <= dist < DISTC[j + 1]
  }

  /******* The fixed codes *******/

  function FixedLength(i: nat): nat {
    if i <= 143 then 8 else if i <= 255 then 9 else if i <= 279 then 7 else 8
  }

  /** `stbi__zdefault_length`. */
  function FixedLengths(): (r: seq<nat>)
    ensures |r| == 288 && forall i | 0 <= i < 288 :: r[i] == FixedLength(i)
  {
    seq(288, i requires i >= 0 => FixedLength(i))
  }

  /** `stbi__zdefault_distance`. */
  function FixedDistances(): (r: seq<nat>)
    ensures |r| == 32 && forall i | 0 <= i < 32 :: r[i] == 5
  {
    seq(32, _ => 5)
  }

  ghost function FixedCount(n: nat, s: nat): nat {
    if s == 7 then (if n <= 256 then 0 else if n <= 280 then n - 256 else 24)
    else if s == 8 then (if n <= 144 then n else if n <= 280 then 144 else n - 136)
    else if s == 9 then (if n <= 144 then 0 else if n <= 256 then n - 144 else 112)
    else 0
  }

  lemma {:induction false} FixedCountIs(n: nat, s: nat)
    requires n <= 288
    ensures Count(FixedLengths()[..n], s) == FixedCount(n, s)
  {
    if n > 0 {
      assert FixedLengths()[..n][..n - 1] == FixedLengths()[..n - 1];
      FixedCountIs(n - 1, s);
    }
  }

  lemma {:induction false} FixedFirst(s: nat)
    ensures s <= 7 ==> FirstCode(FixedLengths(), s) == 0
  {
    if 1 < s <= 7 {
      FixedFirst(s - 1);
      FixedCountIs(288, s - 1);
      assert FixedLengths()[..288] == FixedLengths();
    }
  }

  lemma FixedLevels()
    ensures FirstCode(FixedLengths(), 7) == 0 && FirstCode(FixedLengths(), 8) == 0x30
            && FirstCode(FixedLengths(), 9) == 0x190
    ensures EndCode(FixedLengths(), 9) == 512
  {
    FixedFirst(7);
    assert FixedLengths()[..288] == FixedLengths();
    FixedCountIs(288, 7);
    FixedCountIs(288, 8);
    FixedCountIs(288, 9);
    assert EndCode(FixedLengths(), 7) == 24;
    assert EndCode(FixedLengths(), 8) == 200;
  }

  /** No symbol has a length above `s`. */
  lemma FixedSpaceAbove(s: nat, t: nat)
    requires 9 <= s <= t <= 15
    ensures Space(FixedLengths(), t) == Space(FixedLengths(), s)
  {
    forall i | s < i <= t
      ensures Count(FixedLengths(), i) == 0
    {
      FixedCountIs(288, i);
      assert FixedLengths()[..288] == FixedLengths();
    }
    SpaceStays(FixedLengths(), s, t);
  }

  lemma FixedLengthsOk()
    ensures Lengths(FixedLengths()) && Feasible(FixedLengths())
  {
    FixedLevels();
    FixedSpaceAbove(9, 15);
    EndCodeFits(FixedLengths(), 9);
    Pow2Table();
  }

  /** The codes that the compressor computes are the canonical codes of the fixed lengths. */
  lemma FixedCode(m: nat)
    requires m < 288
    ensures Code(FixedLengths(), m) ==
            if m <= 143 then 0x30 + m else if m <= 255 then 0x190 + m - 144
            else if m <= 279 then m - 256 else 0xc0 + m - 280
  {
    FixedLevels();
    FixedCountIs(m, FixedLengths()[m]);
  }

  lemma {:induction false} FiveCount(n: nat, s: nat)
    requires n <= 32
    ensures Count(FixedDistances()[..n], s) == if s == 5 then n else 0
  {
    if n > 0 {
      assert FixedDistances()[..n][..n - 1] == FixedDistances()[..n - 1];
      FiveCount(n - 1, s);
    }
  }

  lemma {:induction false} FiveFirst(s: nat)
    ensures s <= 5 ==> FirstCode(FixedDistances(), s) == 0
  {
    if 1 < s <= 5 {
      FiveFirst(s - 1);
      FiveCount(32, s - 1);
      assert FixedDistances()[..32] == FixedDistances();
    }
  }

  lemma FiveSpaceAbove(s: nat, t: nat)
    requires 5 <= s <= t <= 15
    ensures Space(FixedDistances(), t) == Space(FixedDistances(), s)
  {
    forall i | s < i <= t
      ensures Count(FixedDistances(), i) == 0
    {
      FiveCount(32, i);
      assert FixedDistances()[..32] == FixedDistances();
    }
    SpaceStays(FixedDistances(), s, t);
  }

  lemma FixedDistancesOk()
    ensures Lengths(FixedDistances()) && Feasible(FixedDistances())
  {
    FiveFirst(5);
    FiveCount(32, 5);
    assert FixedDistances()[..32] == FixedDistances();
    FiveSpaceAbove(5, 15);
    EndCodeFits(FixedDistances(), 5);
    Pow2Table();
  }

  lemma FiveCode(m: nat)
    requires m < 32
    ensures Code(FixedDistances(), m) == m
  {
    FiveFirst(5);
    FiveCount(m, 5);
  }

  /******* The bit stream of a block *******/

  /** The code of a symbol, most significant bit first, in front of `rest`. */
  ghost function PutSymbol(lens: seq<nat>, m: nat, rest: nat): nat
    requires m < |lens|
  {
    Put(Rev(Code(lens, m), lens[m]), lens[m], rest)
  }

  /** `stream` is a token followed by `rest`. */
  ghost predicate TokenStream(t: Token, rest: nat, stream: nat) {
    match t
    case Literal(b) => stream == PutSymbol(FixedLengths(), b, rest)
    case Match(len, dist) =>
      exists j, k :: LengthIndex(len, j) && DistIndex(dist, k) && stream == MatchStream(len, dist, j, k, rest)
  }

  ghost function MatchStream(len: nat, dist: nat, j: nat, k: nat, rest: nat): nat
    requires LengthIndex(len, j) && DistIndex(dist, k)
  {
    PutSymbol(FixedLengths(), 257 + j,
              PutLength(len, j, PutSymbol(FixedDistances(), k, PutDistance(dist, k, rest))))
  }

  /** The extra bits of a length, in front of `rest`. */
  ghost function PutLength(len: nat, j: nat, rest: nat): nat
    requires LengthIndex(len, j)
  {
    Put(len - LENGTHC[j], LENGTHEB[j], rest)
  }

  ghost function PutDistance(dist: nat, k: nat, rest: nat): nat
    requires DistIndex(dist, k)
  {
    Put(dist - DISTC[k], DISTEB[k], rest)
  }

  /** `stream` is the tokens, the end-of-block symbol, and `tail`. */
  ghost predicate BlockStream(ts: seq<Token>, tail: nat, stream: nat) {
    if ts == [] then stream == PutSymbol(FixedLengths(), 256, tail)
    else exists rest :: BlockStream(ts[1..], tail, rest) && TokenStream(ts[0], rest, stream)
  }

  /** A symbol in front of a stream is what the stream starts with. */
  lemma PutSymbolMatches(lens: seq<nat>, m: nat, rest: nat)
    requires Lengths(lens) && Feasible(lens) && m < |lens| && lens[m] > 0
    ensures Matches(lens, m, PutSymbol(lens, m, rest)) && Shr(PutSymbol(lens, m, rest), lens[m]) == rest
  {
    PutTake(Rev(Code(lens, m), lens[m]), lens[m], rest);
    RevBound(Code(lens, m), lens[m]);
    LowFits(Rev(Code(lens, m), lens[m]), lens[m]);
  }
}

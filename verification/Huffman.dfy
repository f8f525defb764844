/**
 Canonical Huffman codes (section 3.2.2 of RFC 1951) as the zlib decoder builds and looks them up: a
 9-bit direct table, and a search over the preshifted end of each code length for longer codes.
 */
module Huffman {
  import opened Bits

  /******* The canonical code of a list of code lengths *******/

  /** The number of symbols whose code has length `s`. */
  ghost function Count(lens: seq<nat>, s: nat): nat {
    if lens == [] then 0
    else Count(lens[..|lens| - 1], s) + if lens[|lens| - 1] == s then 1 else 0
  }

  ghost function FirstCode(lens: seq<nat>, s: nat): nat
    decreases s, 0
  {
    if s <= 1 then 0 else 2 * EndCode(lens, s - 1)
  }

  /** The code after the last code of length `s`. */
  ghost function EndCode(lens: seq<nat>, s: nat): nat
    decreases s, 1
  {
    FirstCode(lens, s) + Count(lens, s)
  }

  /** The number of symbols with shorter codes. */
  ghost function FirstSymbol(lens: seq<nat>, s: nat): nat {
    if s <= 1 then 0 else FirstSymbol(lens, s - 1) + Count(lens, s - 1)
  }

  ghost function Rank(lens: seq<nat>, m: nat): nat
    requires m < |lens|
  {
    Count(lens[..m], lens[m])
  }

  ghost function Code(lens: seq<nat>, m: nat): nat
    requires m < |lens|
  {
    FirstCode(lens, lens[m]) + Rank(lens, m)
  }

  /** The stream `v` starts with the code of symbol `m`, most significant bit first. */
  ghost predicate Matches(lens: seq<nat>, m: nat, v: nat) {
    m < |lens| && lens[m] > 0 && Low(v, lens[m]) == Rev(Code(lens, m), lens[m])
  }

  /** How much of the 16-bit code space the codes of length up to `s` take. */
  ghost function Space(lens: seq<nat>, s: nat): nat
    requires s <= 16
  {
    if s == 0 then 0 else Space(lens, s - 1) + Shl(Count(lens, s), 16 - s)
  }

  /** What the source demands of a list of lengths. */
  ghost predicate Lengths(lens: seq<nat>) {
    |lens| <= 288 && forall i | 0 <= i < |lens| :: lens[i] <= 15
  }

  /** Kraft's inequality: the lengths can be the lengths of a prefix-free code. */
  ghost predicate Feasible(lens: seq<nat>) {
    Space(lens, 15) <= 65536
  }

  /******* Code intervals *******/

  lemma {:induction false} ShlAdd(a: nat, b: nat, n: nat)
    ensures Shl(a + b, n) == Shl(a, n) + Shl(b, n)
  {
    if n > 0 {
      ShlAdd(a, b, n - 1);
    }
  }

  /** The codes of length `s` take the interval from `Space(s - 1)` to `Space(s)`. */
  lemma {:induction false} SpaceIsEnd(lens: seq<nat>, s: nat)
    requires 1 <= s <= 16
    ensures Shl(FirstCode(lens, s), 16 - s) == Space(lens, s - 1)
    ensures Shl(EndCode(lens, s), 16 - s) == Space(lens, s)
  {
    if s == 1 {
      ShlZero(15);
    } else {
      SpaceIsEnd(lens, s - 1);
      ShlDouble(EndCode(lens, s - 1), 16 - s);
    }
    ShlAdd(FirstCode(lens, s), Count(lens, s), 16 - s);
  }

  lemma {:induction false} ShlZero(n: nat)
    ensures Shl(0, n) == 0
  {
    if n > 0 {
      ShlZero(n - 1);
    }
  }

  /** Lengths that no symbol has take no space. */
  lemma {:induction false} SpaceStays(lens: seq<nat>, s: nat, t: nat)
    requires s <= t <= 16 && forall i | s < i <= t :: Count(lens, i) == 0
    ensures Space(lens, t) == Space(lens, s)
    decreases t
  {
    if s < t {
      SpaceStays(lens, s, t - 1);
      ShlZero(16 - t);
    }
  }

  lemma {:induction false} SpaceMonotone(lens: seq<nat>, s: nat, t: nat)
    requires s <= t <= 16
    ensures Space(lens, s) <= Space(lens, t)
    decreases t
  {
    if s < t {
      SpaceMonotone(lens, s, t - 1);
    }
  }

  lemma {:induction false} CountMonotone(lens: seq<nat>, m: nat, n: nat, s: nat)
    requires m <= n <= |lens|
    ensures Count(lens[..m], s) <= Count(lens[..n], s)
    ensures m < n && lens[m] == s ==> Count(lens[..m], s) < Count(lens[..n], s)
    decreases n
  {
    if m < n {
      assert lens[..n][..n - 1] == lens[..n - 1];
      CountMonotone(lens, m, n - 1, s);
    }
  }

  lemma RankBelow(lens: seq<nat>, m: nat)
    requires m < |lens|
    ensures Rank(lens, m) < Count(lens, lens[m])
  {
    CountMonotone(lens, m, |lens|, lens[m]);
    assert lens[..|lens|] == lens;
  }

  lemma RankInjective(lens: seq<nat>, m: nat, n: nat)
    requires m < n < |lens| && lens[m] == lens[n]
    ensures Rank(lens, m) < Rank(lens, n)
  {
    CountMonotone(lens, m, n, lens[m]);
  }

  /** Every rank below the count belongs to a symbol. */
  lemma {:induction false} RankReached(lens: seq<nat>, s: nat, r: nat) returns (m: nat)
    requires r < Count(lens, s)
    ensures m < |lens| && lens[m] == s && Rank(lens, m) == r
    decreases |lens|
  {
    var last := |lens| - 1;
    if r < Count(lens[..last], s) {
      m := RankReached(lens[..last], s, r);
      assert lens[..last][..m] == lens[..m];
    } else {
      m := last;
    }
  }

  lemma {:induction false} EndCodeFits(lens: seq<nat>, s: nat)
    requires 1 <= s <= 15
    ensures Space(lens, s) <= 65536 <==> EndCode(lens, s) <= Pow2(s)
  {
    SpaceIsEnd(lens, s);
    ShlMonotone(EndCode(lens, s), Pow2(s), 16 - s);
    ShlPow2(s, 16 - s);
    Pow2Table();
  }

  lemma CodeFits(lens: seq<nat>, m: nat)
    requires Lengths(lens) && Feasible(lens) && m < |lens| && lens[m] > 0
    ensures Code(lens, m) < EndCode(lens, lens[m]) <= Pow2(lens[m])
  {
    RankBelow(lens, m);
    SpaceMonotone(lens, lens[m], 15);
    EndCodeFits(lens, lens[m]);
  }

  /** Matching is looking at the first bits of the reversed stream. */
  lemma MatchesTop(lens: seq<nat>, m: nat, v: nat)
    requires Lengths(lens) && Feasible(lens) && m < |lens| && lens[m] > 0
    ensures Matches(lens, m, v) <==> Shr(Rev(v, 16), 16 - lens[m]) == Code(lens, m)
  {
    CodeFits(lens, m);
    StartsWith(v, Code(lens, m), lens[m]);
    RevTop(v, lens[m], 16);
  }

  /** A match puts the reversed stream into the interval of its length. */
  lemma MatchesInterval(lens: seq<nat>, m: nat, v: nat)
    requires Lengths(lens) && Feasible(lens) && Matches(lens, m, v)
    ensures Space(lens, lens[m] - 1) <= Rev(v, 16) < Space(lens, lens[m])
  {
    var s := lens[m];
    MatchesTop(lens, m, v);
    CodeFits(lens, m);
    SpaceIsEnd(lens, s);
    ShrInterval(Rev(v, 16), 16 - s, FirstCode(lens, s));
    ShrInterval(Rev(v, 16), 16 - s, EndCode(lens, s));
  }

  /** The code is prefix-free: no stream starts with the codes of two symbols. */
  lemma PrefixFree(lens: seq<nat>, m: nat, n: nat, v: nat)
    requires Lengths(lens) && Feasible(lens) && Matches(lens, m, v) && Matches(lens, n, v)
    ensures m == n
  {
    MatchesInterval(lens, m, v);
    MatchesInterval(lens, n, v);
    if lens[m] < lens[n] {
      SpaceMonotone(lens, lens[m], lens[n] - 1);
    } else if lens[n] < lens[m] {
      SpaceMonotone(lens, lens[n], lens[m] - 1);
    } else {
      MatchesTop(lens, m, v);
      MatchesTop(lens, n, v);
      if m < n {
        RankInjective(lens, m, n);
      } else if n < m {
        RankInjective(lens, n, m);
      }
    }
  }

  /** A reversed stream in the interval of length `s` starts with a code of that length. */
  lemma IntervalMatches(lens: seq<nat>, s: nat, v: nat) returns (m: nat)
    requires Lengths(lens) && Feasible(lens) && 1 <= s <= 15
    requires Space(lens, s - 1) <= Rev(v, 16) < Space(lens, s)
    ensures Matches(lens, m, v) && lens[m] == s
    ensures Shr(Rev(v, 16), 16 - s) == FirstCode(lens, s) + Rank(lens, m)
  {
    var c := Shr(Rev(v, 16), 16 - s);
    SpaceIsEnd(lens, s);
    ShrInterval(Rev(v, 16), 16 - s, FirstCode(lens, s));
    ShrInterval(Rev(v, 16), 16 - s, EndCode(lens, s));
    m := RankReached(lens, s, c - FirstCode(lens, s));
    MatchesTop(lens, m, v);
  }

  /** Below `Space(s)`, some code of length at most `s` matches. */
  lemma {:induction false} SpaceMatches(lens: seq<nat>, s: nat, v: nat) returns (m: nat)
    requires Lengths(lens) && Feasible(lens) && s <= 15 && Rev(v, 16) < Space(lens, s)
    ensures Matches(lens, m, v) && lens[m] <= s
    decreases s
  {
    if Rev(v, 16) < Space(lens, s - 1) {
      m := SpaceMatches(lens, s - 1, v);
    } else {
      m := IntervalMatches(lens, s, v);
    }
  }

  /******* The table *******/

  /** The slot of a symbol in the arrays that list symbols by code. */
  ghost function Slot(lens: seq<nat>, m: nat): nat
    requires m < |lens|
  {
    FirstSymbol(lens, lens[m]) + Rank(lens, m)
  }

  lemma {:induction false} FirstSymbolGrows(lens: seq<nat>, s: nat, t: nat)
    requires 1 <= s <= t
    ensures s < t ==> FirstSymbol(lens, s) + Count(lens, s) <= FirstSymbol(lens, t)
    ensures FirstSymbol(lens, s) <= FirstSymbol(lens, t)
    decreases t
  {
    if s < t {
      FirstSymbolGrows(lens, s, t - 1);
    }
  }

  lemma {:induction false} FirstSymbolSnoc(lens: seq<nat>, s: nat)
    requires lens != []
    ensures var last := lens[|lens| - 1];
            FirstSymbol(lens, s) == FirstSymbol(lens[..|lens| - 1], s) + if 1 <= last < s then 1 else 0
  {
    if s > 1 {
      FirstSymbolSnoc(lens, s - 1);
    }
  }

  lemma {:induction false} FirstSymbolBound(lens: seq<nat>, s: nat)
    ensures FirstSymbol(lens, s) <= |lens|
    decreases |lens|
  {
    if lens == [] {
      FirstSymbolEmpty(s);
    } else {
      FirstSymbolSnoc(lens, s);
      FirstSymbolBound(lens[..|lens| - 1], s);
    }
  }

  lemma {:induction false} FirstSymbolEmpty(s: nat)
    ensures FirstSymbol([], s) == 0
  {
    if s > 1 {
      FirstSymbolEmpty(s - 1);
    }
  }

  lemma SlotBound(lens: seq<nat>, m: nat)
    requires m < |lens| && lens[m] > 0
    ensures Slot(lens, m) < |lens|
  {
    RankBelow(lens, m);
    FirstSymbolGrows(lens, lens[m], lens[m] + 1);
    FirstSymbolBound(lens, lens[m] + 1);
  }

  lemma SlotInjective(lens: seq<nat>, m: nat, n: nat)
    requires m < |lens| && n < |lens| && m != n && lens[m] > 0 && lens[n] > 0
    ensures Slot(lens, m) != Slot(lens, n)
  {
    RankBelow(lens, m);
    RankBelow(lens, n);
    if lens[m] == lens[n] {
      if m < n {
        RankInjective(lens, m, n);
      } else {
        RankInjective(lens, n, m);
      }
    } else if lens[m] < lens[n] {
      FirstSymbolGrows(lens, lens[m], lens[n]);
    } else {
      FirstSymbolGrows(lens, lens[n], lens[m]);
    }
  }

  /** Entry `j` of the direct table, when the symbols below `n` have been entered. */
  ghost predicate FastAt(b: nat, lens: seq<nat>, n: nat, j: nat)
    requires n <= |lens|
  {
    if b == 0 then forall m: nat | m < n && Matches(lens, m, j) :: lens[m] > 9
    else exists m: nat :: m < n && Matches(lens, m, j) && lens[m] <= 9 && b == lens[m] * 512 + m
  }

  ghost predicate LevelAt(firstcode: nat, maxcode: nat, firstsymbol: nat, lens: seq<nat>, s: nat)
    requires s <= 15
  {
    firstcode == FirstCode(lens, s) && maxcode == Space(lens, s) && firstsymbol == FirstSymbol(lens, s)
  }

  /** A table as plain sequences. */
  datatype View = View(fast: seq<nat>, firstcode: seq<nat>, maxcode: seq<nat>, firstsymbol: seq<nat>, size: seq<nat>,
                       value: seq<nat>)

  ghost predicate Sized(t: View) {
    && |t.fast| == 512 && |t.firstcode| == 16 && |t.maxcode| == 17 && |t.firstsymbol| == 16
    && |t.size| == 288 && |t.value| == 288
  }

  ghost predicate FastOk(fast: seq<nat>, lens: seq<nat>, n: nat) {
    |fast| == 512 && n <= |lens| && forall j | 0 <= j < 512 :: FastAt(fast[j], lens, n, j)
  }

  ghost predicate LevelsOk(t: View, lens: seq<nat>, n: nat)
    requires Sized(t) && n <= 16
  {
    forall s | 1 <= s < n :: LevelAt(t.firstcode[s], t.maxcode[s], t.firstsymbol[s], lens, s)
  }

  ghost predicate ListedAt(size: seq<nat>, value: seq<nat>, lens: seq<nat>, m: nat)
    requires |size| == |value| == 288 && m < |lens|
  {
    lens[m] > 0 ==> Slot(lens, m) < 288 && size[Slot(lens, m)] == lens[m] && value[Slot(lens, m)] == m
  }

  ghost predicate ListedOk(size: seq<nat>, value: seq<nat>, lens: seq<nat>, n: nat)
    requires |size| == |value| == 288 && n <= |lens|
  {
    forall m: nat | m < n :: ListedAt(size, value, lens, m)
  }

  /** The table is the decoding table of `lens`. */
  ghost predicate Represents(t: View, lens: seq<nat>) {
    && Sized(t) && Lengths(lens) && Feasible(lens)
    && LevelsOk(t, lens, 16) && t.maxcode[16] == 0x10000
    && FastOk(t.fast, lens, |lens|) && ListedOk(t.size, t.value, lens, |lens|)
  }

  lemma {:induction false} LowLow(v: nat, m: nat, n: nat)
    requires m <= n
    ensures Low(Low(v, n), m) == Low(v, m)
    decreases m
  {
    if m > 0 {
      LowLow(v / 2, m - 1, n - 1);
    }
  }

  lemma Unpack(s: nat, m: nat)
    requires m < 512
    ensures (s * 512 + m) % 512 == m && (s * 512 + m) / 512 == s
  {
  }

  /** A hit in the direct table is a match; `w` is the number of bits of its index. */
  lemma HitAt(b: nat, lens: seq<nat>, v: nat, w: nat)
    requires Lengths(lens) && w >= 9 && b != 0 && FastAt(b, lens, |lens|, Low(v, w))
    ensures Matches(lens, b % 512, v) && lens[b % 512] == b / 512
  {
    var m: nat :| m < |lens| && Matches(lens, m, Low(v, w)) && lens[m] <= 9 && b == lens[m] * 512 + m;
    Unpack(lens[m], m);
    LowLow(v, lens[m], w);
  }

  /** A miss in the direct table leaves only longer codes. */
  lemma MissAt(lens: seq<nat>, v: nat, w: nat)
    requires Lengths(lens) && Feasible(lens) && w >= 9 && FastAt(0, lens, |lens|, Low(v, w))
    ensures Rev(v, 16) >= Space(lens, 9)
  {
    if Rev(v, 16) < Space(lens, 9) {
      var m := SpaceMatches(lens, 9, v);
      LowLow(v, lens[m], w);
    }
  }

  /** No code matches a stream that is above the last code. */
  lemma NoMatchAbove(lens: seq<nat>, m: nat, v: nat)
    requires Lengths(lens) && Feasible(lens) && Rev(v, 16) >= Space(lens, 15)
    ensures !Matches(lens, m, v)
  {
    if Matches(lens, m, v) {
      MatchesInterval(lens, m, v);
      SpaceMonotone(lens, lens[m], 15);
    }
  }

  /** The entries that a code of `s` bits fills in the direct table: every `2^s`-th from its reversal. */
  lemma {:induction false} NextWithSameLow(j: nat, k: nat, s: nat)
    ensures Low(j + Pow2(s), s) == Low(j, s)
    ensures j < k < j + Pow2(s) ==> Low(k, s) != Low(j, s)
    decreases s
  {
    if s > 0 {
      NextWithSameLow(j / 2, k / 2, s - 1);
      assert (j + Pow2(s)) / 2 == j / 2 + Pow2(s - 1);
    }
  }

  lemma {:induction false} Pow2Monotone(m: nat, n: nat)
    requires m <= n
    ensures Pow2(m) <= Pow2(n)
  {
    if m < n {
      Pow2Monotone(m, n - 1);
    }
  }

  /** The truncations to 16 bits in the table lose nothing. */
  lemma CodesAre16Bit(lens: seq<nat>, s: nat)
    requires 1 <= s <= 15 && |lens| <= 288 && Space(lens, s - 1) <= 65536
    ensures FirstCode(lens, s) < 65536 && FirstSymbol(lens, s) < 65536
  {
    FirstSymbolBound(lens, s);
    if s > 1 {
      EndCodeFits(lens, s - 1);
      Pow2Monotone(s, 15);
      Pow2Table();
    }
  }

  /** One more level: its numbers have 16 bits, and its codes end where the next level starts, unless they
      are too many. */
  lemma LevelNext(lens: seq<nat>, s: nat)
    requires 1 <= s <= 15 && |lens| <= 288 && Space(lens, s - 1) <= 65536
    ensures FirstCode(lens, s) < 65536 && FirstSymbol(lens, s) < 65536
    ensures if Count(lens, s) != 0 && FirstCode(lens, s) + Count(lens, s) - 1 >= Pow2(s) then !Feasible(lens)
            else Space(lens, s) <= 65536
    ensures Shl(FirstCode(lens, s) + Count(lens, s), 16 - s) == Space(lens, s)
  {
    CodesAre16Bit(lens, s);
    EndCodeFits(lens, s);
    SpaceMonotone(lens, s, 15);
    SpaceIsEnd(lens, s);
    if Count(lens, s) == 0 {
      SpaceStays(lens, s - 1, s);
    }
  }

  /** One more symbol: its code goes to its slot, the other slots stay. */
  lemma ListedNext(size: seq<nat>, value: seq<nat>, size': seq<nat>, value': seq<nat>, lens: seq<nat>, i: nat)
    requires |size| == |value| == 288 && i < |lens| && lens[i] > 0 && Lengths(lens) && ListedOk(size, value, lens, i)
    requires Slot(lens, i) < 288 && size' == size[Slot(lens, i) := lens[i]] && value' == value[Slot(lens, i) := i]
    ensures ListedOk(size', value', lens, i + 1)
  {
    forall m: nat | m < i + 1
      ensures ListedAt(size', value', lens, m)
    {
      if m < i && lens[m] > 0 {
        assert ListedAt(size, value, lens, m);
        SlotInjective(lens, m, i);
      }
    }
  }

  lemma FastNext(fast: seq<nat>, fast': seq<nat>, lens: seq<nat>, i: nat)
    requires FastOk(fast, lens, i) && i < |lens| && |fast'| == 512
    requires forall j: nat | j < 512 ::
               fast'[j] == if 0 < lens[i] <= 9 && Matches(lens, i, j) then lens[i] * 512 + i else fast[j]
    ensures FastOk(fast', lens, i + 1)
  {
    forall j | 0 <= j < 512
      ensures FastAt(fast'[j], lens, i + 1, j)
    {
      assert FastAt(fast[j], lens, i, j);
      if 0 < lens[i] <= 9 && Matches(lens, i, j) {
        assert i < i + 1;
      }
    }
  }

  class Table {
    const fast: array<nat>
    const firstcode: array<nat>
    const maxcode: array<nat>
    const firstsymbol: array<nat>
    const size: array<nat>
    const value: array<nat>

    ghost function Contents(): View
      reads fast, firstcode, maxcode, firstsymbol, size, value
    {
      View(fast[..], firstcode[..], maxcode[..], firstsymbol[..], size[..], value[..])
    }

    ghost predicate Valid() {
      && fast.Length == 512 && firstcode.Length == 16 && maxcode.Length == 17 && firstsymbol.Length == 16
      && size.Length == 288 && value.Length == 288
      && fast !in {firstcode, maxcode, firstsymbol, size, value} && firstcode !in {maxcode, firstsymbol, size, value}
      && maxcode !in {firstsymbol, size, value} && firstsymbol !in {size, value} && size != value
    }

    constructor ()
      ensures Valid() && fresh(fast) && fresh(firstcode) && fresh(maxcode) && fresh(firstsymbol) && fresh(size)
              && fresh(value)
    {
      fast, firstcode, maxcode := new nat[512], new nat[16], new nat[17];
      firstsymbol, size, value := new nat[16], new nat[288], new nat[288];
    }

    /** Enters `fastv` at every index whose low `s` bits are the reversed code. */
    method FillFast(start: nat, s: nat, fastv: nat)
      requires Valid() && s <= 9 && start < Pow2(s)
      modifies fast
      ensures forall j | 0 <= j < 512 :: fast[j] == if Low(j, s) == start then fastv else old(fast[j])
    {
      var j := start;
      LowFits(start, s);
      assert forall k: nat | k < start :: Low(k, s) != start by {
        forall k: nat | k < start
          ensures Low(k, s) != start
        {
          LowFits(k, s);
        }
      }
      while j < 512
        invariant Low(j, s) == start
        invariant forall k: nat | k < 512 :: fast[k] == if k < j && Low(k, s) == start then fastv else old(fast[k])
        invariant forall k: nat | k < j && k < 512 :: Low(k, s) == start ==> fast[k] == fastv
      {
        fast[j] := fastv;
        forall k: nat
          ensures Low(j + Pow2(s), s) == Low(j, s)
          ensures j < k < j + Pow2(s) ==> Low(k, s) != start
        {
          NextWithSameLow(j, k, s);
        }
        j := j + Pow2(s);
      }
    }

    /** Counts the symbols of each length. */
    static method CountSizes(sizelist: seq<nat>) returns (sizes: array<nat>)
      requires Lengths(sizelist)
      ensures fresh(sizes) && sizes.Length == 17
      ensures forall s | 1 <= s < 17 :: sizes[s] == Count(sizelist, s)
    {
      sizes := new nat[17](_ => 0);
      for i := 0 to |sizelist|
        invariant forall s | 0 <= s < 17 :: sizes[s] == Count(sizelist[..i], s)
      {
        assert sizelist[..i + 1][..i] == sizelist[..i];
        sizes[sizelist[i]] := sizes[sizelist[i]] + 1;
      }
      assert sizelist[..|sizelist|] == sizelist;
      sizes[0] := 0;
    }

    /** Rejects a length with more symbols than there are codes of that length. */
    static method SizesFit(sizes: array<nat>, ghost lens: seq<nat>) returns (ok: bool)
      requires sizes.Length == 17 && forall s | 1 <= s < 17 :: sizes[s] == Count(lens, s)
      ensures ok <==> forall s | 1 <= s < 16 :: Count(lens, s) <= Pow2(s)
      ensures !ok ==> !Feasible(lens)
    {
      for i := 1 to 16
        invariant forall s | 1 <= s < i :: Count(lens, s) <= Pow2(s)
      {
        if sizes[i] > Pow2(i) {
          EndCodeFits(lens, i);
          SpaceMonotone(lens, i, 15);
          return false;
        }
      }
      return true;
    }

    /** The first code, the first slot and the preshifted end of each length. */
    method AssignLevels(sizes: array<nat>, ghost lens: seq<nat>) returns (ok: bool, nextCode: array<nat>)
      requires Valid() && Lengths(lens) && sizes.Length == 17 && forall s | 1 <= s < 17 :: sizes[s] == Count(lens, s)
      requires sizes !in {fast, firstcode, maxcode, firstsymbol, size, value}
      modifies firstcode, maxcode, firstsymbol
      ensures fresh(nextCode) && nextCode.Length == 16
      ensures ok <==> Feasible(lens)
      ensures ok ==> Sized(Contents()) && LevelsOk(Contents(), lens, 16) && maxcode[16] == 0x10000
      ensures ok ==> forall s | 1 <= s < 16 :: nextCode[s] == FirstCode(lens, s)
    {
      nextCode := new nat[16];
      var code, k := 0, 0;
      ok := true;
      for i := 1 to 16
        invariant code == FirstCode(lens, i) && k == FirstSymbol(lens, i) && Space(lens, i - 1) <= 65536
        invariant forall s | 1 <= s < i :: LevelAt(firstcode[s], maxcode[s], firstsymbol[s], lens, s)
        invariant forall s | 1 <= s < i :: nextCode[s] == FirstCode(lens, s)
      {
        nextCode[i] := code;
        ok := AssignLevel(i, code, k, sizes[i], lens);
        if !ok {
          return false, nextCode;
        }
        code := 2 * (code + sizes[i]);
        k := k + sizes[i];
      }
      maxcode[16] := 0x10000;
      return true, nextCode;
    }

    /** One level, with `n` codes from `code` on and slots from `k` on. */
    method AssignLevel(i: nat, code: nat, k: nat, n: nat, ghost lens: seq<nat>) returns (ok: bool)
      requires Valid() && 1 <= i <= 15 && |lens| <= 288 && Space(lens, i - 1) <= 65536
      requires code == FirstCode(lens, i) && k == FirstSymbol(lens, i) && n == Count(lens, i)
      modifies firstcode, maxcode, firstsymbol
      ensures if ok then Space(lens, i) <= 65536 else !Feasible(lens)
      ensures ok ==> LevelAt(firstcode[i], maxcode[i], firstsymbol[i], lens, i)
      ensures forall s | 0 <= s < i ::
                firstcode[s] == old(firstcode[s]) && maxcode[s] == old(maxcode[s])
                && firstsymbol[s] == old(firstsymbol[s])
    {
      LevelNext(lens, i);
      firstcode[i] := code % 0x1_0000;
      firstsymbol[i] := k % 0x1_0000;
      if n != 0 {
        if code + n - 1 >= Pow2(i) {
          return false;
        }
      }
      maxcode[i] := Shl(code + n, 16 - i);
      return true;
    }

    /** Enters one symbol with a code of length `s > 0`. */
    method AssignSymbol(i: nat, s: nat, code: nat, ghost lens: seq<nat>)
      requires Valid() && Lengths(lens) && Feasible(lens) && i < |lens| && s == lens[i] > 0 && code == Code(lens, i)
      requires LevelsOk(Contents(), lens, 16)
      requires FastOk(fast[..], lens, i) && ListedOk(size[..], value[..], lens, i)
      modifies fast, size, value
      ensures FastOk(fast[..], lens, i + 1) && ListedOk(size[..], value[..], lens, i + 1)
    {
      assert LevelAt(firstcode[s], maxcode[s], firstsymbol[s], lens, s);
      var c := code - firstcode[s] + firstsymbol[s];
      SlotBound(lens, i);
      var fastv := s * 512 + i;
      size[c] := s;
      value[c] := i;
      ListedNext(old(size[..]), old(value[..]), size[..], value[..], lens, i);
      if s <= 9 {
        RevBound(code, s);
        FillFast(Rev(code, s), s, fastv);
      }
      FastNext(old(fast[..]), fast[..], lens, i);
    }

    /** Enters all symbols. */
    method AssignSymbols(sizelist: seq<nat>, nextCode: array<nat>)
      requires Valid() && Lengths(sizelist) && Feasible(sizelist)
      requires nextCode.Length == 16 && nextCode !in {fast, firstcode, maxcode, firstsymbol, size, value}
      requires forall s | 1 <= s < 16 :: nextCode[s] == FirstCode(sizelist, s)
      requires LevelsOk(Contents(), sizelist, 16) && FastOk(fast[..], sizelist, 0)
      modifies fast, size, value, nextCode
      ensures FastOk(fast[..], sizelist, |sizelist|) && ListedOk(size[..], value[..], sizelist, |sizelist|)
    {
      for i := 0 to |sizelist|
        invariant forall s | 1 <= s < 16 :: nextCode[s] == FirstCode(sizelist, s) + Count(sizelist[..i], s)
        invariant FastOk(fast[..], sizelist, i) && ListedOk(size[..], value[..], sizelist, i)
        invariant firstcode[..] == old(firstcode[..]) && maxcode[..] == old(maxcode[..])
                  && firstsymbol[..] == old(firstsymbol[..])
      {
        assert sizelist[..i + 1][..i] == sizelist[..i];
        var s := sizelist[i];
        if s != 0 {
          AssignSymbol(i, s, nextCode[s], sizelist);
          nextCode[s] := nextCode[s] + 1;
        } else {
          FastNext(fast[..], fast[..], sizelist, i);
          assert ListedAt(size[..], value[..], sizelist, i);
        }
      }
    }

    /** `stbi__zbuild_huffman`: accepts exactly the feasible lengths. */
    method Build(sizelist: seq<nat>) returns (ok: bool)
      requires Valid() && Lengths(sizelist)
      modifies fast, firstcode, maxcode, firstsymbol, size, value
      ensures ok <==> Feasible(sizelist)
      ensures ok ==> Represents(Contents(), sizelist)
    {
      forall j | 0 <= j < 512 {
        fast[j] := 0;
      }
      var sizes := CountSizes(sizelist);
      ok := SizesFit(sizes, sizelist);
      if !ok {
        return;
      }
      var nextCode;
      ok, nextCode := AssignLevels(sizes, sizelist);
      if !ok {
        return;
      }
      assert FastOk(fast[..], sizelist, 0) by {
        assert forall j | 0 <= j < 512 :: FastAt(0, sizelist, 0, j);
      }
      AssignSymbols(sizelist, nextCode);
    }
  }
}

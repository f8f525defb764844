/**
 The match finder of the compressor: chains of earlier positions by a hash of three bytes, the
 longest match within the window, and the check for a longer match one byte later.
 */
module Matcher {
  import opened Bits
  import opened Deflate

  const ZHASH: nat := 16384
  const WINDOW: nat := 32768

  const WORD: nat := 0x1_0000_0000

  /** `stbiw__zhash` on 32-bit words, masked to the table size. */
  function Hash(a: byte, b: byte, c: byte): (h: nat)
    ensures h < ZHASH
  {
    var h0: nat := a + b * 256 + c * 65536;
    var h1 := Xor(h0, h0 * 8 % WORD);
    var h2 := (h1 + h1 / 32) % WORD;
    var h3 := Xor(h2, h2 * 16 % WORD);
    var h4 := (h3 + h3 / 131072) % WORD;
    var h5 := Xor(h4, h4 * 33554432 % WORD);
    var h6 := (h5 + h5 / 64) % WORD;
    h6 % ZHASH
  }

  function HashAt(data: seq<byte>, i: nat): (h: nat)
    requires i + 2 < |data|
    ensures h < ZHASH
  {
    Hash(data[i], data[i + 1], data[i + 2])
  }

  /** The `n` bytes at `i` repeat the bytes `i - loc` before them. */
  ghost predicate Repeats(data: seq<byte>, loc: nat, i: nat, n: nat) {
    loc < i && i + n <= |data| && forall p | i <= p < i + n :: data[p] == data[p - (i - loc)]
  }

  /** `stbiw__zlib_countm`: how many bytes at `loc` and at `i` agree, up to 258. */
  method CountMatching(data: seq<byte>, loc: nat, i: nat) returns (n: nat)
    requires loc < i <= |data|
    ensures n <= 258 && Repeats(data, loc, i, n)
    ensures n == 258 || i + n == |data| || data[loc + n] != data[i + n]
  {
    n := 0;
    while n < |data| - i && n < 258
      invariant n <= 258 && Repeats(data, loc, i, n)
      decreases 258 - n
    {
      if data[loc + n] != data[i + n] {
        break;
      }
      n := n + 1;
    }
  }

  ghost predicate AllBefore(ps: seq<nat>, i: nat) {
    forall j | 0 <= j < |ps| :: ps[j] < i
  }

  /** A match that the format can express. */
  ghost predicate Usable(data: seq<byte>, loc: nat, i: nat, n: nat) {
    3 <= n <= 258 && Repeats(data, loc, i, n) && i - loc <= 32767
  }

  /** Position `loc` is in the window of `i` and has a match of at least `n` bytes there. */
  ghost predicate Offers(data: seq<byte>, loc: nat, i: nat, n: nat) {
    loc > i - WINDOW && n <= 258 && Repeats(data, loc, i, n)
  }

  /** A count says exactly what is offered. */
  lemma CountOffers(data: seq<byte>, loc: nat, i: nat, d: nat, n: nat)
    requires loc < i <= |data| && loc > i - WINDOW && d <= 258 && Repeats(data, loc, i, d)
    requires d == 258 || i + d == |data| || data[loc + d] != data[i + d]
    ensures Offers(data, loc, i, n) <==> n <= d
  {
    if n > d && d < 258 && i + d < |data| {
      var p := i + d;
      assert p - (i - loc) == loc + d;
    }
  }

  lemma NoneOfMore(data: seq<byte>, hlist: seq<nat>, j: nat, i: nat, n: nat)
    requires j < |hlist|
    ensures NoneOffers(data, hlist[..j + 1], i, n)
            <==> NoneOffers(data, hlist[..j], i, n) && !Offers(data, hlist[j], i, n)
  {
    var now := hlist[..j + 1];
    assert now == hlist[..j] + [hlist[j]] && now[j] == hlist[j];
    assert forall k | 0 <= k < j :: now[k] == hlist[..j][k];
  }

  /** Fewer bytes are offered more often. */
  lemma NoneGrows(data: seq<byte>, hlist: seq<nat>, i: nat, m: nat, n: nat)
    requires NoneOffers(data, hlist, i, m) && m <= n
    ensures NoneOffers(data, hlist, i, n)
  {
    forall j | 0 <= j < |hlist|
      ensures !Offers(data, hlist[j], i, n)
    {
      assert !Offers(data, hlist[j], i, m);
    }
  }

  /** No position of the chain offers `n` bytes. */
  ghost predicate NoneOffers(data: seq<byte>, hlist: seq<nat>, i: nat, n: nat) {
    forall j | 0 <= j < |hlist| :: !Offers(data, hlist[j], i, n)
  }

  /** `loc` is the last position of the chain that offers `n` bytes. */
  ghost predicate LastOffer(data: seq<byte>, hlist: seq<nat>, i: nat, n: nat, loc: int) {
    exists j :: 0 <= j < |hlist| && hlist[j] == loc && LastAt(data, hlist, i, n, j)
  }

  ghost predicate LastAt(data: seq<byte>, hlist: seq<nat>, i: nat, n: nat, j: nat)
    requires j < |hlist|
  {
    Offers(data, hlist[j], i, n) && forall k | j < k < |hlist| :: !Offers(data, hlist[k], i, n)
  }

  /** The longest match on a chain, the last of them if there are several; -1 if none has three bytes. */
  ghost predicate BestOf(data: seq<byte>, chain: seq<nat>, i: nat, best: nat, bestloc: int) {
    if bestloc < 0 then best == 3 && NoneOffers(data, chain, i, 3)
    else
      && bestloc in chain && Usable(data, bestloc, i, best)
      && NoneOffers(data, chain, i, best + 1) && LastOffer(data, chain, i, best, bestloc)
  }

  /** One more position on the chain, which offers less. */
  lemma BestKept(data: seq<byte>, chain: seq<nat>, i: nat, best: nat, bestloc: int, loc: nat, more: seq<nat>)
    requires BestOf(data, chain, i, best, bestloc) && more == chain + [loc] && !Offers(data, loc, i, best)
    requires !Offers(data, loc, i, best + 1)
    ensures BestOf(data, more, i, best, bestloc)
  {
    forall n, j | 0 <= j < |more| && NoneOffers(data, chain, i, n) && !Offers(data, loc, i, n)
      ensures !Offers(data, more[j], i, n)
    {
      assert j < |chain| ==> more[j] == chain[j];
    }
    if bestloc >= 0 {
      var j :| 0 <= j < |chain| && chain[j] == bestloc && LastAt(data, chain, i, best, j);
      assert more[j] == bestloc;
      forall k | j < k < |more|
        ensures !Offers(data, more[k], i, best)
      {
        assert k < |chain| ==> more[k] == chain[k];
      }
      assert LastAt(data, more, i, best, j);
    }
  }

  /** One that offers as much or more. */
  lemma BestTaken(data: seq<byte>, chain: seq<nat>, i: nat, best: nat, bestloc: int, loc: nat, d: nat, more: seq<nat>)
    requires BestOf(data, chain, i, best, bestloc) && more == chain + [loc] && d >= best && Usable(data, loc, i, d)
    requires Offers(data, loc, i, d) && !Offers(data, loc, i, d + 1)
    ensures BestOf(data, more, i, d, loc)
  {
    var n := |chain|;
    NoneGrows(data, chain, i, if bestloc < 0 then 3 else best + 1, d + 1);
    forall j | 0 <= j < |more|
      ensures !Offers(data, more[j], i, d + 1)
    {
      assert j < n ==> more[j] == chain[j];
    }
    assert more[n] == loc && LastAt(data, more, i, d, n);
  }

  method FindBest(data: seq<byte>, i: nat, hlist: seq<nat>) returns (best: nat, bestloc: int)
    requires i <= |data| && AllBefore(hlist, i)
    ensures BestOf(data, hlist, i, best, bestloc)
    ensures bestloc >= 0 ==> !NoneOffers(data, hlist, i, best)
  {
    best, bestloc := 3, -1;
    for j := 0 to |hlist|
      invariant BestOf(data, hlist[..j], i, best, bestloc)
    {
      best, bestloc := TryPosition(data, i, hlist[..j], hlist[j], best, bestloc);
      assert hlist[..j + 1] == hlist[..j] + [hlist[j]];
    }
    assert hlist[..|hlist|] == hlist;
    if bestloc >= 0 {
      OfferExists(data, hlist, i, best, bestloc);
    }
  }

  lemma OfferExists(data: seq<byte>, hlist: seq<nat>, i: nat, n: nat, loc: int)
    requires LastOffer(data, hlist, i, n, loc)
    ensures !NoneOffers(data, hlist, i, n)
  {
  }

  /** One round of the loop. */
  method TryPosition(data: seq<byte>, i: nat, ghost chain: seq<nat>, loc: nat, best: nat, bestloc: int)
    returns (now: nat, nowloc: int)
    requires loc < i <= |data| && BestOf(data, chain, i, best, bestloc)
    ensures BestOf(data, chain + [loc], i, now, nowloc)
  {
    if loc > i - WINDOW {
      var d := CountMatching(data, loc, i);
      CountOffers(data, loc, i, d, best);
      CountOffers(data, loc, i, d, best + 1);
      if d >= best {
        CountOffers(data, loc, i, d, d);
        CountOffers(data, loc, i, d, d + 1);
        assert best >= 3;
        BestTaken(data, chain, i, best, bestloc, loc, d, chain + [loc]);
        return d, loc;
      }
    }
    BestKept(data, chain, i, best, bestloc, loc, chain + [loc]);
    return best, bestloc;
  }

  /** Whether the chain of the next position has a longer match. */
  method NextIsBetter(data: seq<byte>, i: nat, hlist: seq<nat>, best: nat) returns (better: bool)
    requires i + 1 <= |data| && AllBefore(hlist, i + 1)
    ensures better <==> !NoneOffers(data, hlist, i + 1, best + 1)
  {
    for j := 0 to |hlist|
      invariant NoneOffers(data, hlist[..j], i + 1, best + 1)
    {
      NoneOfMore(data, hlist, j, i + 1, best + 1);
      if hlist[j] > i - (WINDOW - 1) {
        var e := CountMatching(data, hlist[j], i + 1);
        CountOffers(data, hlist[j], i + 1, e, best + 1);
        if e > best {
          assert Offers(data, hlist[j], i + 1, best + 1);
          return true;
        }
      }
    }
    assert hlist[..|hlist|] == hlist;
    return false;
  }

  /** The chains of earlier positions. */
  class Chains {
    const table: array<seq<nat>>
    const quality: nat

    ghost predicate Valid(i: nat)
      reads table
    {
      table.Length == ZHASH && quality >= 5 && forall h | 0 <= h < ZHASH :: AllBefore(table[h], i)
    }

    constructor (quality: nat)
      ensures Valid(0) && fresh(table) && Begins(Place(0, table[..]))
      ensures this.quality == if quality < 5 then 5 else quality
    {
      table := new seq<nat>[ZHASH](_ => []);
      this.quality := if quality < 5 then 5 else quality;
    }

    /** Adds position `i` to a chain, dropping the older half of a full one. */
    method Push(h: nat, i: nat)
      requires Valid(i) && h < ZHASH
      modifies table
      ensures Valid(i + 1) && forall g | 0 <= g < ZHASH :: table[g] == Pushed(quality, old(table[g]), g == h, i)
    {
      if |table[h]| == 2 * quality {
        table[h] := table[h][quality..];
      }
      table[h] := table[h] + [i];
    }

    /** The token at position `i`: the longest match on the chain of its hash, unless there is none of
        three bytes, or the next position has a longer one on its own chain. */
    method Choose(data: seq<byte>, i: nat) returns (t: Token)
      requires Valid(i) && i + 3 < |data|
      modifies table
      ensures Valid(i + 1) && forall g | 0 <= g < ZHASH ::
                table[g] == Pushed(quality, old(table[g]), g == HashAt(data, i), i)
      ensures t.Literal? ==> t.value == data[i]
      ensures t.Match? ==>
                t.dist <= i && i - t.dist in old(table[HashAt(data, i)])
                && Usable(data, i - t.dist, i, t.len)
      ensures Chosen(data, old(table[HashAt(data, i)]), table[HashAt(data, i + 1)], i, t)
    {
      var h := HashAt(data, i);
      var best, bestloc := FindBest(data, i, table[h]);
      Push(h, i);
      if bestloc >= 0 {
        h := HashAt(data, i + 1);
        var better := NextIsBetter(data, i, table[h], best);
        if better {
          assert Beaten(data, old(table[HashAt(data, i)]), table[h], i, best);
          bestloc := -1;
        }
      }
      if bestloc >= 0 {
        return Match(best, i - bestloc);
      }
      return Literal(data[i]);
    }
  }

  /** The token for position `i`, whose chain is `here`, before the next position, whose chain is `next`: the
      longest match, if the next position has no longer one; else a literal. */
  ghost predicate Chosen(data: seq<byte>, here: seq<nat>, next: seq<nat>, i: nat, t: Token) {
    match t
    case Match(len, dist) =>
      dist <= i && BestOf(data, here, i, len, i - dist) && NoneOffers(data, next, i + 1, len + 1)
    case Literal(v) =>
      i < |data| && v == data[i] && (NoneOffers(data, here, i, 3) || BeatenNext(data, here, next, i))
  }

  /** The chains after position `i` was added to one of them. */
  ghost predicate AllPushed(quality: nat, was: seq<seq<nat>>, now: seq<seq<nat>>, h: nat, i: nat) {
    |now| == |was| && forall g | 0 <= g < |was| :: now[g] == Pushed(quality, was[g], g == h, i)
  }

  /** A chain after position `i` was added to it, or to another one. */
  function Pushed(quality: nat, chain: seq<nat>, here: bool, i: nat): seq<nat> {
    if !here then chain
    else (if quality > 0 && |chain| == 2 * quality then chain[quality..] else chain) + [i]
  }

  /** A chain never has more than twice `quality` positions, and the latest ones are kept. */
  lemma PushedKeeps(quality: nat, chain: seq<nat>, i: nat)
    requires 0 < quality && |chain| <= 2 * quality
    ensures var r := Pushed(quality, chain, true, i);
            && |r| <= 2 * quality && r == (chain + [i])[|chain| + 1 - |r|..]
            && |r| == if |chain| < 2 * quality then |chain| + 1 else quality + 1
    ensures Pushed(quality, chain, false, i) == chain
  {
  }

  /** Where the compressor stands: at a position, with the chains so far. */
  datatype Place = Place(i: nat, chains: seq<seq<nat>>)

  ghost predicate Begins(p: Place) {
    p.i == 0 && |p.chains| == ZHASH && forall h | 0 <= h < ZHASH :: p.chains[h] == []
  }

  /** From one place to the next by a token that is chosen there. */
  ghost predicate Advances(data: seq<byte>, quality: nat, p: Place, t: Token, q: Place) {
    && p.i + 3 < |data| && |p.chains| == |q.chains| == ZHASH
    && AllPushed(quality, p.chains, q.chains, HashAt(data, p.i), p.i)
    && Chosen(data, p.chains[HashAt(data, p.i)], q.chains[HashAt(data, p.i + 1)], p.i, t)
    && q.i == p.i + if t.Match? then t.len else 1
  }

  /** The longest match on the chain here has `n` bytes, and the chain of the next position has a longer one. */
  ghost predicate Beaten(data: seq<byte>, here: seq<nat>, next: seq<nat>, i: nat, n: nat) {
    n >= 3 && !NoneOffers(data, here, i, n) && NoneOffers(data, here, i, n + 1) && !NoneOffers(data, next, i + 1, n + 1)
  }

  ghost predicate BeatenNext(data: seq<byte>, here: seq<nat>, next: seq<nat>, i: nat) {
    exists n :: Beaten(data, here, next, i, n)
  }
}

/**
 The whole compressor, and the round trip through the decoder.
 */
module Zlib {
  import opened Bits
  import opened Huffman
  import opened Deflate
  import opened BitWriting
  import Inflate
  import Matcher
  import Adler

  /******* Tokens with the codes chosen for them *******/

  datatype Coded = Coded(token: Token, j: nat, k: nat)

  ghost predicate CodedOk(c: Coded) {
    c.token.Match? ==> LengthIndex(c.token.len, c.j) && DistIndex(c.token.dist, c.k)
  }

  ghost function CodedBits(c: Coded, rest: nat): nat
    requires CodedOk(c)
  {
    match c.token
    case Literal(b) => PutSymbol(FixedLengths(), b, rest)
    case Match(len, dist) => MatchStream(len, dist, c.j, c.k, rest)
  }

  ghost predicate AllCoded(cs: seq<Coded>) {
    forall i | 0 <= i < |cs| :: CodedOk(cs[i])
  }

  ghost function PrefixBits(cs: seq<Coded>, rest: nat): nat
    requires AllCoded(cs)
  {
    if cs == [] then rest else CodedBits(cs[0], PrefixBits(cs[1..], rest))
  }

  ghost function Tokens(cs: seq<Coded>): seq<Token> {
    if cs == [] then [] else [cs[0].token] + Tokens(cs[1..])
  }

  lemma {:induction false} PrefixSnoc(cs: seq<Coded>, c: Coded, rest: nat)
    requires AllCoded(cs) && CodedOk(c)
    ensures AllCoded(cs + [c]) && PrefixBits(cs + [c], rest) == PrefixBits(cs, CodedBits(c, rest))
  {
    if cs == [] {
      assert cs + [c] == [c] && [c][1..] == [];
    } else {
      assert (cs + [c])[1..] == cs[1..] + [c];
      PrefixSnoc(cs[1..], c, rest);
    }
  }

  lemma {:induction false} TokensSnoc(cs: seq<Coded>, c: Coded)
    ensures Tokens(cs + [c]) == Tokens(cs) + [c.token]
  {
    if cs == [] {
      assert cs + [c] == [c] && [c][1..] == [];
    } else {
      assert (cs + [c])[1..] == cs[1..] + [c];
      TokensSnoc(cs[1..], c);
    }
  }

  /** Coded tokens, then the end-of-block symbol, are a block. */
  lemma {:induction false} PrefixIsBlock(cs: seq<Coded>, tail: nat)
    requires AllCoded(cs)
    ensures BlockStream(Tokens(cs), tail, PrefixBits(cs, PutSymbol(FixedLengths(), 256, tail)))
  {
    if cs != [] {
      PrefixIsBlock(cs[1..], tail);
      var rest := PrefixBits(cs[1..], PutSymbol(FixedLengths(), 256, tail));
      assert Tokens(cs)[1..] == Tokens(cs[1..]);
      assert TokenStream(cs[0].token, rest, CodedBits(cs[0], rest));
    }
  }

  /******* The compressor *******/

  /** What has been written stands for the first `i` bytes. */
  ghost predicate Written(w: BitWriter, cs: seq<Coded>, data: seq<byte>, i: nat)
    reads w
  {
    && w.Valid() && i <= |data| && AllCoded(cs)
    && TokensOk([], Tokens(cs)) && Expand([], Tokens(cs)) == data[..i]
    && forall rest: nat :: w.With(rest) == Inflate.FixedStart(true, PrefixBits(cs, rest))
  }

  /** The tokens so far and one more. */
  lemma MoreTokens(cs: seq<Coded>, c: Coded, data: seq<byte>, i: nat, n: nat)
    requires AllCoded(cs) && CodedOk(c) && TokensOk([], Tokens(cs)) && i + n <= |data|
             && Expand([], Tokens(cs)) == data[..i]
    requires TokenOk(data[..i], c.token) && Apply(data[..i], c.token) == data[..i + n]
    ensures AllCoded(cs + [c]) && TokensOk([], Tokens(cs + [c])) && Expand([], Tokens(cs + [c])) == data[..i + n]
  {
    TokensSnoc(cs, c);
    ExpandSnoc([], Tokens(cs), c.token);
  }

  method WriteLiteral(w: BitWriter, ghost cs: seq<Coded>, data: seq<byte>, i: nat) returns (ghost cs': seq<Coded>)
    requires Written(w, cs, data, i) && i < |data|
    modifies w
    ensures Written(w, cs', data, i + 1) && w.out[..2] == old(w.out[..2])
    ensures |cs'| == |cs| + 1 && cs <= cs' && cs'[|cs|].token == Literal(data[i])
  {
    ghost var c := Coded(Literal(data[i]), 0, 0);
    cs' := cs + [c];
    assert data[..i] + [data[i]] == data[..i + 1];
    MoreTokens(cs, c, data, i, 1);
    w.AddSymbol(data[i]);
    forall rest: nat
      ensures w.With(rest) == Inflate.FixedStart(true, PrefixBits(cs', rest))
    {
      PrefixSnoc(cs, c, rest);
    }
  }

  method WriteMatch(w: BitWriter, ghost cs: seq<Coded>, data: seq<byte>, i: nat, len: nat, dist: nat)
    returns (ghost cs': seq<Coded>)
    requires Written(w, cs, data, i) && 1 <= dist <= i && Matcher.Usable(data, i - dist, i, len)
    modifies w
    ensures Written(w, cs', data, i + len) && w.out[..2] == old(w.out[..2])
    ensures |cs'| == |cs| + 1 && cs <= cs' && cs'[|cs|].token == Match(len, dist)
  {
    ghost var j, k := w.AddMatch(len, dist);
    ghost var c := Coded(Match(len, dist), j, k);
    cs' := cs + [c];
    CopyRepeats(data, i, len, dist);
    MoreTokens(cs, c, data, i, len);
    forall rest: nat
      ensures w.With(rest) == Inflate.FixedStart(true, PrefixBits(cs', rest))
    {
      PrefixSnoc(cs, c, rest);
    }
  }

  /** The block: matches and literals, then the last bytes as literals. */
  method WriteBlock(w: BitWriter, data: seq<byte>, quality: nat)
    returns (ghost cs: seq<Coded>, ghost ps: seq<Matcher.Place>)
    requires Written(w, [], data, 0)
    modifies w
    ensures Written(w, cs, data, |data|) && w.out[..2] == old(w.out[..2])
    ensures Decided(data, if quality < 5 then 5 else quality, cs, ps)
  {
    var chains := new Matcher.Chains(quality);
    cs := [];
    ps := [Matcher.Place(0, chains.table[..])];
    var i := 0;
    while i < |data| - 3
      invariant Written(w, cs, data, i) && w.out[..2] == old(w.out[..2])
      invariant chains.Valid(i) && fresh(chains.table) && RouteTo(data, chains.quality, cs, ps, i, chains.table[..])
      decreases |data| - i
    {
      i, cs, ps := WriteToken(w, chains, cs, ps, data, i);
    }
    ghost var decided := cs;
    cs := WriteTail(w, cs, data, i);
    assert cs[..|decided|] == decided;
  }

  /** One round of the loop. */
  method WriteToken(w: BitWriter, chains: Matcher.Chains, ghost cs: seq<Coded>, ghost ps: seq<Matcher.Place>,
                    data: seq<byte>, i: nat)
    returns (next: nat, ghost cs': seq<Coded>, ghost ps': seq<Matcher.Place>)
    requires Written(w, cs, data, i) && i + 3 < |data| && chains.Valid(i)
    requires RouteTo(data, chains.quality, cs, ps, i, chains.table[..])
    modifies w, chains.table
    ensures i < next && Written(w, cs', data, next) && chains.Valid(next) && w.out[..2] == old(w.out[..2])
    ensures RouteTo(data, chains.quality, cs', ps', next, chains.table[..])
  {
    var t := chains.Choose(data, i);
    if t.Match? {
      cs' := WriteMatch(w, cs, data, i, t.len, t.dist);
      next := i + t.len;
    } else {
      cs' := WriteLiteral(w, cs, data, i);
      next := i + 1;
    }
    ghost var q := Matcher.Place(next, chains.table[..]);
    RouteOn(data, chains.quality, cs, ps, cs', t, q);
    ps' := ps + [q];
  }

  /** The last bytes. */
  method WriteTail(w: BitWriter, ghost cs: seq<Coded>, data: seq<byte>, i: nat) returns (ghost cs': seq<Coded>)
    requires Written(w, cs, data, i)
    modifies w
    ensures Written(w, cs', data, |data|) && w.out[..2] == old(w.out[..2])
    ensures cs <= cs' && forall k | |cs| <= k < |cs'| :: cs'[k].token.Literal?
  {
    cs' := cs;
    for j := i to |data|
      invariant Written(w, cs', data, j) && w.out[..2] == old(w.out[..2])
      invariant cs <= cs' && forall k | |cs| <= k < |cs'| :: cs'[k].token.Literal?
    {
      cs' := WriteLiteral(w, cs', data, j);
    }
  }

  /** The route leads to position `i`, with these chains. */
  ghost predicate RouteTo(data: seq<byte>, quality: nat, cs: seq<Coded>, ps: seq<Matcher.Place>, i: nat,
                          chains: seq<seq<nat>>)
  {
    Route(data, quality, cs, ps) && ps[|cs|] == Matcher.Place(i, chains)
  }

  /** The tokens lead from place to place. */
  ghost predicate Route(data: seq<byte>, quality: nat, cs: seq<Coded>, ps: seq<Matcher.Place>) {
    && |ps| == |cs| + 1 && Matcher.Begins(ps[0])
    && forall k | 0 <= k < |cs| :: RouteAt(data, quality, cs, ps, k)
  }

  ghost predicate RouteAt(data: seq<byte>, quality: nat, cs: seq<Coded>, ps: seq<Matcher.Place>, k: nat)
    requires k < |cs| < |ps|
  {
    Matcher.Advances(data, quality, ps[k], cs[k].token, ps[k + 1])
  }

  /** All tokens are chosen by the match finder, up to the last three bytes, which are literals. */
  ghost predicate Decided(data: seq<byte>, quality: nat, cs: seq<Coded>, ps: seq<Matcher.Place>) {
    && 0 < |ps| <= |cs| + 1 && Route(data, quality, cs[..|ps| - 1], ps) && ps[|ps| - 1].i + 3 >= |data|
    && forall k | |ps| - 1 <= k < |cs| :: cs[k].token.Literal?
  }

  lemma RouteOn(data: seq<byte>, quality: nat, cs: seq<Coded>, ps: seq<Matcher.Place>, more: seq<Coded>, t: Token,
                q: Matcher.Place)
    requires Route(data, quality, cs, ps) && |more| == |cs| + 1 && cs <= more && more[|cs|].token == t
    requires Matcher.Advances(data, quality, ps[|cs|], t, q)
    ensures Route(data, quality, more, ps + [q])
  {
    var qs := ps + [q];
    forall k | 0 <= k < |more|
      ensures RouteAt(data, quality, more, qs, k)
    {
      if k < |cs| {
        assert RouteAt(data, quality, cs, ps, k) && more[k] == cs[k] && qs[k] == ps[k] && qs[k + 1] == ps[k + 1];
      } else {
        assert qs[k] == ps[k] && qs[k + 1] == q;
      }
    }
  }

  /** The header bits of the only block. */
  method WriteStart() returns (w: BitWriter)
    ensures fresh(w) && w.Valid() && w.out[..2] == [0x78, 0x5e]
    ensures forall rest: nat :: w.With(rest) == Inflate.FixedStart(true, rest)
  {
    w := new BitWriter();
    Pow2Table();
    assert w.out[2..] == [];
    w.Add(1, 1);
    w.Add(1, 2);
  }

  /** After the end-of-block symbol and the padding, the bytes are a whole stream, whatever follows. */
  lemma BlockIsWhole(body: seq<byte>, trailer: seq<byte>, cs: seq<Coded>, data: seq<byte>, m: nat)
    requires BodyHolds(body, cs, m) && TokensOk([], Tokens(cs)) && Expand([], Tokens(cs)) == data
    ensures Inflate.Encodes([0x78, 0x5e] + body + trailer, data)
  {
    var input := [0x78, 0x5e] + body + trailer;
    var after := Little(trailer);
    var tail := Put(0, m, after);
    var w := PrefixBits(cs, PutSymbol(FixedLengths(), 256, tail));
    PrefixIsBlock(cs, tail);
    assert Put(Little(body), 8 * |body|, after) == Inflate.FixedStart(true, w);
    LittleConcat(body, trailer);
    BehindHeader(input, body, trailer);
    OneBlockIsWhole(input, Tokens(cs), tail, data, w);
  }

  lemma BehindHeader(input: seq<byte>, body: seq<byte>, trailer: seq<byte>)
    requires input == [0x78, 0x5e] + body + trailer
    ensures |input| >= 2 && input[..2] == [0x78, 0x5e] && input[2..] == body + trailer
  {
    assert input == [0x78, 0x5e] + (body + trailer);
  }

  lemma OneBlockIsWhole(input: seq<byte>, ts: seq<Token>, tail: nat, data: seq<byte>, w: nat)
    requires |input| >= 2 && input[..2] == [0x78, 0x5e] && Inflate.Ahead([], ts, tail, data, w)
    requires Little(input[2..]) == Inflate.FixedStart(true, w)
    ensures Inflate.Encodes(input, data)
  {
    Inflate.OwnHeaderOk(input);
    Inflate.OneBlock(ts, tail, data, Little(input[2..]), w);
    assert Inflate.Whole(input, [ts], tail, data);
  }

  /** `stbi_zlib_compress`: the output is a zlib stream of the data that ends in the checksum. */
  method Compress(data: seq<byte>, quality: nat)
    returns (out: seq<byte>, ghost cs: seq<Coded>, ghost ps: seq<Matcher.Place>)
    ensures Inflate.Encodes(out, data)
    ensures Decided(data, if quality < 5 then 5 else quality, cs, ps) && exists m :: Holds(out, cs, m)
    ensures |out| >= 6
    ensures var s1, s2 := Adler.SumA(data, |data|), Adler.SumB(data, |data|);
            s1 < 65536 && s2 < 65536 && out[|out| - 4..] == [s2 / 256, s2 % 256, s1 / 256, s1 % 256]
  {
    var bytes;
    ghost var m;
    bytes, cs, ps, m := WriteBody(data, quality);
    var s1, s2 := Adler.Checksum(data);
    var trailer: seq<byte> := [s2 / 256, s2 % 256, s1 / 256, s1 % 256];
    out := bytes + trailer;
    BlockIsWhole(bytes[2..], trailer, cs, data, m);
    assert bytes == [0x78, 0x5e] + bytes[2..];
    assert out[2..|out| - 4] == bytes[2..];
    assert Holds(out, cs, m);
  }

  /** All but the checksum. */
  method WriteBody(data: seq<byte>, quality: nat)
    returns (bytes: seq<byte>, ghost cs: seq<Coded>, ghost ps: seq<Matcher.Place>, ghost m: nat)
    ensures |bytes| >= 2 && bytes[..2] == [0x78, 0x5e] && BodyHolds(bytes[2..], cs, m)
    ensures TokensOk([], Tokens(cs)) && Expand([], Tokens(cs)) == data
    ensures Decided(data, if quality < 5 then 5 else quality, cs, ps)
  {
    var w := WriteStart();
    cs, ps := WriteBlock(w, data, quality);
    w.AddSymbol(256);
    m := w.Pad();
    assert data[..|data|] == data;
    bytes := w.out;
  }

  /** Between header and checksum, the bytes are the bits of a final block of these tokens and padding. */
  ghost predicate Holds(out: seq<byte>, cs: seq<Coded>, m: nat) {
    |out| >= 6 && BodyHolds(out[2..|out| - 4], cs, m)
  }

  ghost predicate BodyHolds(body: seq<byte>, cs: seq<Coded>, m: nat) {
    && AllCoded(cs) && m < 8
    && forall rest: nat ::
      Put(Little(body), 8 * |body|, rest)
      == Inflate.FixedStart(true, PrefixBits(cs, PutSymbol(FixedLengths(), 256, Put(0, m, rest))))
  }

  /** Decompressing what was compressed gives the data back, for every data, every quality and every
      output buffer that the data fits or that may grow. */
  method RoundTrip(data: seq<byte>, quality: nat, capacity: nat, expandable: bool, available: nat)
    returns (r: Inflate.Verdict, back: seq<byte>)
    requires expandable ==> capacity > 0
    ensures Inflate.Fits(data, capacity, expandable, available) ==> r.Finished? && back == data
  {
    var packed, cs, ps := Compress(data, quality);
    r, back := Inflate.Decompress(packed, capacity, expandable, available, data);
  }
}

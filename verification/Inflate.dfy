/**
 The zlib decoder: a bit buffer over the input, Huffman lookups, and the loop over the symbols of a
 block with its growing output buffer.
 */
module Inflate {
  import opened Bits
  import opened Huffman
  import opened Deflate

  /******* The bit buffer *******/

  lemma {:induction false} ShrFits(v: nat, n: nat, m: nat)
    requires m <= n && v < Pow2(n)
    ensures Shr(v, m) < Pow2(n - m)
    decreases m
  {
    if m > 0 {
      ShrFits(v / 2, n - 1, m - 1);
    }
  }

  lemma LittleNext(bs: seq<byte>)
    ensures bs != [] ==> Little(bs) == Put(bs[0], 8, Little(bs[1..]))
    ensures Put(0, 8, Little([])) == Little([])
  {
    PutFits(0, 8);
  }

  /** One byte moves from the input into the bit buffer. */
  lemma FillStep(code: nat, bits: nat, b: nat, w: nat, rest: nat)
    requires code < Pow2(bits) && b < Pow2(w)
    ensures Put(code + Shl(b, bits), bits + w, rest) == Put(code, bits, Put(b, w, rest))
    ensures code + Shl(b, bits) < Pow2(bits + w)
  {
    PutAfter(code, bits, b, w, rest);
    AppendFits(code, bits, b, w);
  }

  lemma ByteMoves(code: nat, bits: nat, b: byte, before: nat, after: nat)
    requires code < Pow2(bits) && before == Put(b, 8, after)
    ensures Put(code + Shl(b, bits), bits + 8, after) == Put(code, bits, before)
    ensures code + Shl(b, bits) < Pow2(bits + 8)
  {
    Pow2Table();
    FillStep(code, bits, b, 8, after);
  }

  /** What the buffer shows of the stream, for codes up to its number of bits. */
  lemma BufferShows(code: nat, bits: nat, rest: nat, lens: seq<nat>, m: nat)
    requires Lengths(lens) && bits >= 16
    ensures Matches(lens, m, Put(code, bits, rest)) <==> Matches(lens, m, code)
    ensures m < |lens| ==> Shr(Put(code, bits, rest), lens[m]) == Put(Shr(code, lens[m]), bits - lens[m], rest)
  {
    if m < |lens| {
      PutLow(code, bits, rest, lens[m]);
    }
  }

  lemma KeyBound(v: nat)
    ensures Rev(v, 16) < 65536
  {
    RevBound(v, 16);
    Pow2Table();
  }

  class ZBuf {
    const zbuffer: seq<byte>
    var pos: nat
    var numBits: nat
    var codeBuffer: nat
    var out: seq<byte>
    var capacity: nat
    const expandable: bool
    /** The largest buffer that a reallocation grants. */
    const available: nat
    const zLength: Table
    const zDistance: Table

    ghost predicate Valid()
      reads this
    {
      && pos <= |zbuffer| && numBits <= 32 && codeBuffer < Pow2(numBits)
      && |out| <= capacity && (expandable ==> capacity > 0)
    }

    ghost function TableArrays(): set<object> {
      { zLength.fast, zLength.firstcode, zLength.maxcode, zLength.firstsymbol, zLength.size, zLength.value,
        zDistance.fast, zDistance.firstcode, zDistance.maxcode, zDistance.firstsymbol, zDistance.size, zDistance.value }
    }

    /** The two tables share no array. */
    ghost predicate Apart() {
      zLength.Valid() && zDistance.Valid() &&
      { zLength.fast, zLength.firstcode, zLength.maxcode, zLength.firstsymbol, zLength.size, zLength.value } !!
      { zDistance.fast, zDistance.firstcode, zDistance.maxcode, zDistance.firstsymbol, zDistance.size, zDistance.value }
    }

    /** Everything that is still to be read, with zeros after the end of the input. */
    ghost function Stream(): nat
      reads this
      requires pos <= |zbuffer|
    {
      Put(codeBuffer, numBits, Little(zbuffer[pos..]))
    }

    constructor (zbuffer: seq<byte>, capacity: nat, expandable: bool, available: nat)
      requires expandable ==> capacity > 0
      ensures Valid() && Apart() && fresh(TableArrays())
      ensures this.zbuffer == zbuffer && pos == 0 && numBits == 0 && codeBuffer == 0
      ensures out == [] && this.capacity == capacity && this.expandable == expandable && this.available == available
    {
      this.zbuffer, pos, numBits, codeBuffer := zbuffer, 0, 0, 0;
      out := [];
      this.capacity, this.expandable, this.available := capacity, expandable, available;
      zLength := new Table();
      zDistance := new Table();
    }

    /** `stbi__zget8`. */
    method Get8() returns (b: byte)
      requires pos <= |zbuffer|
      modifies `pos
      ensures pos <= |zbuffer| && Little(zbuffer[old(pos)..]) == Put(b, 8, Little(zbuffer[pos..]))
      ensures if old(pos) < |zbuffer| then b == zbuffer[old(pos)] && pos == old(pos) + 1 else b == 0 && pos == old(pos)
    {
      LittleNext(zbuffer[pos..]);
      if pos >= |zbuffer| {
        assert zbuffer[pos..] == [];
        return 0;
      }
      assert zbuffer[pos..][1..] == zbuffer[pos + 1..];
      b := zbuffer[pos];
      pos := pos + 1;
    }

    /** One round of the loop of `stbi__fill_bits`. */
    method FillByte()
      requires Valid() && numBits <= 24
      modifies `pos, `codeBuffer, `numBits
      ensures Valid() && numBits == old(numBits) + 8 && Stream() == old(Stream())
    {
      ghost var before := Little(zbuffer[pos..]);
      var b := Get8();
      ShiftIn(b, before);
    }

    method ShiftIn(b: byte, ghost before: nat)
      requires Valid() && numBits <= 24 && before == Put(b, 8, Little(zbuffer[pos..]))
      modifies `codeBuffer, `numBits
      ensures Valid() && numBits == old(numBits) + 8 && Stream() == Put(old(codeBuffer), old(numBits), before)
    {
      ByteMoves(codeBuffer, numBits, b, before, Little(zbuffer[pos..]));
      codeBuffer := codeBuffer + Shl(b, numBits);
      numBits := numBits + 8;
    }

    /** `stbi__fill_bits`. */
    method FillBits()
      requires Valid() && numBits <= 24
      modifies `pos, `codeBuffer, `numBits
      ensures Valid() && 24 < numBits <= 32 && Stream() == old(Stream())
    {
      FillByte();
      while numBits <= 24
        invariant Valid() && Stream() == old(Stream())
        decreases 32 - numBits
      {
        FillByte();
      }
    }

    /** `stbi__zreceive`: the next `n` bits as a number. */
    method Receive(n: nat) returns (k: nat)
      requires Valid() && n <= 16
      modifies `pos, `codeBuffer, `numBits
      ensures Valid() && k == Low(old(Stream()), n) && Stream() == Shr(old(Stream()), n)
    {
      if numBits < n {
        FillBits();
      }
      k := Low(codeBuffer, n);
      PutLow(codeBuffer, numBits, Little(zbuffer[pos..]), n);
      Consume(n);
    }

    /** Removes bits from the buffer. */
    method Consume(s: nat)
      requires Valid() && s <= numBits
      modifies `codeBuffer, `numBits
      ensures Valid() && Stream() == Shr(old(Stream()), s)
    {
      PutLow(codeBuffer, numBits, Little(zbuffer[pos..]), s);
      ShrFits(codeBuffer, numBits, s);
      codeBuffer := Shr(codeBuffer, s);
      numBits := numBits - s;
    }

    /** The symbol whose code starts the stream, or -1 when no code does. */
    ghost predicate Decoded(lens: seq<nat>, v: nat, r: int) {
      if r < 0 then r == -1 && forall m :: !Matches(lens, m, v)
      else Matches(lens, r, v)
    }

    /** The first length above nine whose codes end after `k`. */
    static method SearchLength(z: Table, k: nat, ghost lens: seq<nat>) returns (s: nat)
      requires z.Valid() && Represents(z.Contents(), lens) && Space(lens, 9) <= k < 65536
      ensures 10 <= s <= 16 && Space(lens, s - 1) <= k && (s < 16 ==> k < Space(lens, s))
    {
      s := 10;
      while !(k < z.maxcode[s])
        invariant 10 <= s <= 16 && k >= Space(lens, s - 1)
        decreases 16 - s
      {
        assert LevelAt(z.firstcode[s], z.maxcode[s], z.firstsymbol[s], lens, s);
        s := s + 1;
      }
      if s < 16 {
        assert LevelAt(z.firstcode[s], z.maxcode[s], z.firstsymbol[s], lens, s);
      }
    }

    /** The symbol with the code of length `s` that starts `k`. */
    static method SymbolAt(z: Table, k: nat, s: nat, ghost lens: seq<nat>, ghost m: nat) returns (r: nat)
      requires z.Valid() && Represents(z.Contents(), lens) && 1 <= s <= 15
      requires m < |lens| && lens[m] == s && Shr(k, 16 - s) == FirstCode(lens, s) + Rank(lens, m)
      ensures r == m
    {
      assert LevelAt(z.firstcode[s], z.maxcode[s], z.firstsymbol[s], lens, s);
      assert ListedAt(z.size[..], z.value[..], lens, m);
      var b := Shr(k, 16 - s) - z.firstcode[s] + z.firstsymbol[s];
      assert z.size[b] == s;
      return z.value[b];
    }

    /** `stbi__zhuffman_decode_slowpath`. */
    method DecodeSlow(z: Table, ghost lens: seq<nat>) returns (r: int)
      requires Valid() && z.Valid() && Represents(z.Contents(), lens) && numBits >= 16
      requires Rev(codeBuffer, 16) >= Space(lens, 9)
      modifies `codeBuffer, `numBits
      ensures Valid() && Decoded(lens, old(codeBuffer), r)
      ensures Stream() == if r < 0 then old(Stream()) else Shr(old(Stream()), lens[r])
    {
      KeyBound(codeBuffer);
      var k := Rev(codeBuffer, 16);
      var s := SearchLength(z, k, lens);
      if s == 16 {
        forall m
          ensures !Matches(lens, m, codeBuffer)
        {
          NoMatchAbove(lens, m, codeBuffer);
        }
        return -1;
      }
      ghost var m := IntervalMatches(lens, s, codeBuffer);
      r := SymbolAt(z, k, s, lens, m);
      Consume(s);
    }

    /** `stbi__zhuffman_decode`. */
    method Decode(z: Table, ghost lens: seq<nat>) returns (r: int)
      requires Valid() && z.Valid() && Represents(z.Contents(), lens)
      modifies `pos, `codeBuffer, `numBits
      ensures Valid() && Decoded(lens, old(Stream()), r)
      ensures Stream() == if r < 0 then old(Stream()) else Shr(old(Stream()), lens[r])
    {
      if numBits < 16 {
        FillBits();
      }
      ghost var code, bits, rest := codeBuffer, numBits, Little(zbuffer[pos..]);
      forall m
        ensures Matches(lens, m, Put(code, bits, rest)) <==> Matches(lens, m, code)
      {
        BufferShows(code, bits, rest, lens, m);
      }
      var b := LookUp(z, lens);
      if b != 0 {
        Consume(b / 512);
        return b % 512;
      }
      r := DecodeSlow(z, lens);
    }

    /** The entry of the direct table for the next nine bits. */
    method LookUp(z: Table, ghost lens: seq<nat>) returns (b: nat)
      requires Valid() && z.Valid() && Represents(z.Contents(), lens)
      ensures b != 0 ==> Matches(lens, b % 512, codeBuffer) && lens[b % 512] == b / 512
      ensures b == 0 ==> Rev(codeBuffer, 16) >= Space(lens, 9)
    {
      LowBound(codeBuffer, 9);
      Pow2Table();
      b := z.fast[Low(codeBuffer, 9)];
      assert FastAt(b, lens, |lens|, Low(codeBuffer, 9));
      if b != 0 {
        HitAt(b, lens, codeBuffer, 9);
      } else {
        MissAt(lens, codeBuffer, 9);
      }
    }

    /******* The output buffer *******/

    /** An output of `n` bytes fits, growing the buffer if need be. */
    ghost predicate Roomy(n: nat)
      reads this
    {
      n <= capacity || (expandable && 2 * n <= available)
    }

    /** `stbi__zexpand`: doubles the buffer until `n` more bytes fit. */
    method ZExpand(n: nat) returns (ok: bool)
      requires Valid() && |out| + n > capacity
      modifies `capacity
      ensures capacity >= old(capacity) && (expandable ==> capacity > 0)
      ensures if ok then |out| + n <= capacity else capacity == old(capacity)
      ensures ok <==> expandable && Doubled(old(capacity), |out| + n) <= available
      ensures ok ==> capacity == Doubled(old(capacity), |out| + n)
      ensures old(Roomy(|out| + n)) ==> ok
    {
      if !expandable {
        return false;
      }
      var limit := capacity;
      while |out| + n > limit
        invariant 0 < capacity <= limit
        invariant limit == capacity || limit < 2 * (|out| + n)
        invariant Doubled(limit, |out| + n) == Doubled(capacity, |out| + n)
        decreases |out| + n - limit
      {
        limit := limit * 2;
      }
      if limit > available {
        return false;
      }
      capacity := limit;
      return true;
    }

    /** Appends `len` bytes from `dist` back. A distance of zero, which only the two unused distance
        codes have, reads bytes that were never written. */
    method CopyBack(len: nat, dist: nat)
      requires Valid() && dist <= |out| && |out| + len <= capacity
      modifies `out
      ensures |out| == old(|out|) + len && Valid() && old(out) <= out
      ensures dist > 0 ==> out == Copy(old(out), len, dist)
    {
      var left := len;
      if dist == 1 {
        var v := out[|out| - 1];
        while left > 0
          invariant 0 <= left <= len && |out| == old(|out|) + len - left && out != [] && out[|out| - 1] == v
          invariant old(out) <= out
          invariant Copy(out, left, 1) == Copy(old(out), len, 1)
        {
          out := out + [v];
          left := left - 1;
        }
      } else {
        while left > 0
          invariant 0 <= left <= len && |out| == old(|out|) + len - left && old(out) <= out
          invariant dist > 0 ==> Copy(out, left, dist) == Copy(old(out), len, dist)
        {
          if dist == 0 {
            var garbage: byte := *;
            out := out + [garbage];
          } else {
            out := out + [out[|out| - dist]];
          }
          left := left - 1;
        }
      }
    }

    /******* The loop over the symbols of a block *******/

    ghost predicate TablesFixed()
      reads this, TableArrays()
    {
      Represents(zLength.Contents(), FixedLengths()) && Represents(zDistance.Contents(), FixedDistances())
    }

    /** `base` plus the extra bits, if there are any. */
    method AddExtra(base: nat, extra: nat) returns (x: nat)
      requires Valid() && extra <= 16
      modifies `pos, `codeBuffer, `numBits
      ensures Valid() && x == base + Low(old(Stream()), extra) && Stream() == Shr(old(Stream()), extra)
      ensures ExtraCoded(base, extra, old(Stream()), x, Stream())
    {
      ExtraSplit(base, extra, Stream());
      x := base;
      if extra != 0 {
        var k := Receive(extra);
        x := x + k;
      }
    }

    /** Reads a distance. The ghost parameters describe a match whose distance the stream may hold; if
        it does, that distance is what is read. */
    method ReadDistance(ghost t: Token, ghost k: nat, ghost rest: nat) returns (ok: bool, dist: nat)
      requires Valid() && zDistance.Valid() && Represents(zDistance.Contents(), FixedDistances())
      modifies `pos, `codeBuffer, `numBits
      ensures Valid() && Stream() <= old(Stream()) && (ok ==> DistanceCoded(old(Stream()), dist, Stream()))
      ensures DistanceAhead(t, k, rest, old(Stream())) ==> ok && dist == t.dist && Stream() == rest
    {
      ghost var v := Stream();
      var d := Decode(zDistance, FixedDistances());
      if DistanceAhead(t, k, rest, v) {
        DistanceSeen(t, k, rest, v, d);
      }
      if d < 0 {
        return false, 0;
      }
      DistanceShrinks(v, d);
      SymbolSplit(FixedDistances(), d, v);
      ok := true;
      ghost var mid := Stream();
      dist := AddExtra(DIST_BASE[d], DIST_EXTRA[d]);
      assert DistanceCodedBy(d, mid, v, dist, Stream());
    }

    /** Reads the length after the length symbol `z`, if the stream holds it. */
    method ReadLength(z: nat, ghost t: Token, ghost j: nat, ghost rest: nat) returns (len: nat)
      requires Valid() && z < 31
      modifies `pos, `codeBuffer, `numBits
      ensures Valid() && Stream() <= old(Stream()) && LengthCoded(z, old(Stream()), len, Stream())
      ensures z == j && LengthAhead(t, j, rest, old(Stream())) ==> len == t.len && Stream() == rest
    {
      ghost var v := Stream();
      ExtraBits(z);
      ShrLess(v, LENGTH_EXTRA[z]);
      if LengthAhead(t, j, rest, v) {
        LengthRead(t, j, rest);
      }
      len := AddExtra(LENGTH_BASE[z], LENGTH_EXTRA[z]);
    }

    /** Appends a literal, making room first. */
    method AppendLiteral(z: byte) returns (ok: bool)
      requires Valid()
      modifies `out, `capacity
      ensures Valid() && capacity >= old(capacity)
      ensures ok ==> out == old(out) + [z]
      ensures old(Roomy(|out| + 1)) ==> ok
    {
      if |out| >= capacity {
        ok := ZExpand(1);
        if !ok {
          return;
        }
      }
      out := out + [z];
      ok := true;
    }

    /** Appends a match, making room first. */
    method AppendMatch(len: nat, dist: nat) returns (ok: bool)
      requires Valid()
      modifies `out, `capacity
      ensures Valid() && capacity >= old(capacity)
      ensures ok ==> Copied(old(out), len, dist, out)
      ensures dist <= old(|out|) && old(Roomy(|out| + len)) ==> ok
    {
      if |out| < dist {
        return false;
      }
      if |out| + len > capacity {
        ok := ZExpand(len);
        if !ok {
          return;
        }
      }
      CopyBack(len, dist);
      ok := true;
    }

    /** The match after the length symbol `z`; the ghost parameters describe one that the stream may hold, and
        what was decoded before. */
    method ParseMatch(z: nat, ghost t: Token, ghost j: nat, ghost k: nat, ghost mid: nat, ghost after: nat,
                      ghost v: nat, ghost tr: Trace)
      returns (ok: bool)
      requires Valid() && Apart() && TablesFixed() && z < 31
      requires Traced(tr) && Ends(tr, out, v) && v == PutSymbol(FixedLengths(), 257 + z, Stream())
      modifies `pos, `codeBuffer, `numBits, `out, `capacity
      ensures Valid() && capacity >= old(capacity) && Stream() <= old(Stream())
      ensures ok ==> Traced(tr + [(out, Stream())])
      ensures z == j && LengthAhead(t, j, mid, old(Stream())) && DistanceAhead(t, k, after, mid) &&
              TokenOk(old(out), t) && old(Roomy(|out| + if t.Match? then t.len else 1)) ==>
                ok && out == Apply(old(out), t) && Stream() == after
    {
      ghost var w, was := Stream(), out;
      var len := ReadLength(z, t, j, mid);
      ghost var between := Stream();
      var dist;
      ok, dist := ReadDistance(t, k, after);
      if !ok {
        return;
      }
      ok := AppendMatch(len, dist);
      if ok {
        MatchTraced(tr, z, w, was, v, out, Stream(), len, dist, between);
      }
    }

    /** One round of the loop of `stbi__parse_huffman_block`. If the stream holds the tokens `left`,
        which expand to `goal`, the round takes the first of them. What was decoded before is in `tr`. */
    method ParseSymbol(ghost left: seq<Token>, ghost tail: nat, ghost goal: seq<byte>, ghost tr: Trace)
      returns (r: Round)
      requires Valid() && Apart() && TablesFixed() && Traced(tr) && Ends(tr, out, Stream())
      modifies `pos, `codeBuffer, `numBits, `out, `capacity
      ensures Valid() && capacity >= old(capacity)
      ensures Stream() <= old(Stream()) && (r.GoOn? ==> Stream() < old(Stream()))
      ensures r.Done? ==> out == old(out) && old(Stream()) == PutSymbol(FixedLengths(), 256, Stream())
      ensures r.GoOn? ==> Traced(tr + [(out, Stream())])
      ensures old(Ahead(out, left, tail, goal, Stream())) && old(Roomy(|goal|)) ==>
                if left == [] then r.Done? && out == goal && Stream() == tail
                else r.GoOn? && Ahead(out, left[1..], tail, goal, Stream())
    {
      var z;
      ghost var v := Stream();
      ghost var j, k, mid, after;
      z, j, k, mid, after := DecodeHead(left, tail, goal);
      HeadTaken(out, left, tail, goal, z, j, k, mid, after, Stream());
      if z < 256 {
        if z < 0 {
          return Failed;
        }
        var ok := ParseLiteral(z, v, tr);
        return if ok then GoOn else Failed;
      }
      if z == 256 {
        return Done;
      }
      var ok := ParseMatch(z - 257, if left == [] then Literal(0) else left[0], j, k, mid, after, v, tr);
      return if ok then GoOn else Failed;
    }

    /** A literal. */
    method ParseLiteral(z: byte, ghost v: nat, ghost tr: Trace) returns (ok: bool)
      requires Valid() && Traced(tr) && Ends(tr, out, v) && v == PutSymbol(FixedLengths(), z, Stream())
      modifies `out, `capacity
      ensures Valid() && capacity >= old(capacity) && (ok ==> Traced(tr + [(out, Stream())]))
      ensures ok ==> out == old(out) + [z]
      ensures old(Roomy(|out| + 1)) ==> ok
    {
      ghost var was := out;
      ok := AppendLiteral(z);
      if ok {
        LiteralTraced(tr, z, was, v, out, Stream());
      }
    }

    /** The next symbol. If the stream holds the tokens `left`, it is that of the first of them, and the stream
        goes on with the rest of it. */
    method DecodeHead(ghost left: seq<Token>, ghost tail: nat, ghost goal: seq<byte>)
      returns (z: int, ghost j: nat, ghost k: nat, ghost mid: nat, ghost after: nat)
      requires Valid() && Apart() && TablesFixed()
      modifies `pos, `codeBuffer, `numBits
      ensures Valid() && z < 288 && Stream() <= old(Stream()) && (z >= 0 && z != 256 ==> Stream() < old(Stream()))
      ensures z >= 0 ==> old(Stream()) == PutSymbol(FixedLengths(), z, Stream())
      ensures Ahead(out, left, tail, goal, old(Stream())) ==>
                HeadRead(out, left, tail, goal, z, j, k, mid, after, Stream())
    {
      ghost var v := Stream();
      z := Decode(zLength, FixedLengths());
      j, k, mid, after := 0, 0, 0, 0;
      if Ahead(out, left, tail, goal, v) {
        j, k, mid, after := HeadDecoded(left, tail, v, z);
        HeadFits(out, left, goal);
      }
      NotEndShrinks(v, z);
      if z >= 0 {
        SymbolSplit(FixedLengths(), z, v);
      }
    }

    /** `stbi__parse_huffman_block` with the fixed tables: if the stream holds a block of tokens and the
        output fits, the block is expanded and the stream goes on after it. */
    method ParseHuffmanBlock(ghost ts: seq<Token>, ghost tail: nat, ghost goal: seq<byte>) returns (ok: bool)
      requires Valid() && Apart() && TablesFixed()
      modifies `pos, `codeBuffer, `numBits, `out, `capacity
      ensures Valid() && capacity >= old(capacity) && Stream() <= old(Stream())
      ensures old(Ahead(out, ts, tail, goal, Stream())) && old(Roomy(|goal|)) ==> ok && out == goal && Stream() == tail
      ensures ok ==> BlockCoded(old(out), old(Stream()), out, Stream())
    {
      ghost var tr := [(out, Stream())];
      ghost var left := ts;
      ghost var promised := Ahead(out, ts, tail, goal, Stream()) && Roomy(|goal|);
      while true
        invariant Valid() && capacity >= old(capacity) && Stream() <= old(Stream())
        invariant promised ==> Ahead(out, left, tail, goal, Stream()) && Roomy(|goal|)
        invariant Traced(tr) && Starts(tr, old(out), old(Stream())) && Ends(tr, out, Stream())
        decreases Stream()
      {
        var r := ParseSymbol(left, tail, goal, tr);
        if r.Failed? {
          return false;
        }
        if r.Done? {
          assert BlockTraced(tr, old(out), old(Stream()), out, Stream());
          return true;
        }
        tr := tr + [(out, Stream())];
        if left != [] {
          left := left[1..];
        }
      }
    }

    /** `stbi__parse_zlib_header`: the check value, no preset dictionary, and DEFLATE. */
    method ParseHeader() returns (ok: bool)
      requires pos <= |zbuffer|
      modifies `pos
      ensures pos == if old(pos) + 2 <= |zbuffer| then old(pos) + 2 else |zbuffer|
      ensures ok <==> HeaderAt(zbuffer, old(pos))
    {
      var cmf := Get8();
      var flg := Get8();
      ok := CheckHeader(cmf, flg);
    }

    static method CheckHeader(cmf: byte, flg: byte) returns (ok: bool)
      ensures ok <==> HeaderOk(cmf, flg)
    {
      var check: int := cmf;
      check := check * 256 + flg;
      if check % 31 != 0 {
        return false;
      }
      if flg / 32 % 2 != 0 {
        return false;
      }
      if cmf % 16 != 8 {
        return false;
      }
      return true;
    }

    /** Builds the tables of the fixed codes. */
    method BuildFixed() returns (ok: bool)
      requires Apart()
      modifies TableArrays()
      ensures ok && TablesFixed()
    {
      FixedLengthsOk();
      FixedDistancesOk();
      ok := zLength.Build(FixedLengths());
      if !ok {
        return false;
      }
      ok := zDistance.Build(FixedDistances());
    }

    /** One round of the loop of `stbi__parse_zlib`: a fixed block that is ahead is expanded, and the verdict
        says whether it is the last. */
    method ParseBlock(ghost ts: seq<Token>, ghost tail: nat, ghost goal: seq<byte>, ghost last: bool, ghost w: nat,
                      ghost tr: Trace)
      returns (r: Verdict)
      requires Valid() && Apart() && BlocksTraced(tr) && Ends(tr, out, Stream())
      modifies `pos, `codeBuffer, `numBits, `out, `capacity, TableArrays()
      ensures Valid() && capacity >= old(capacity) && (r.More? ==> Stream() < old(Stream()))
      ensures old(Stream()) == FixedStart(last, w) && Ahead(old(out), ts, tail, goal, w) && old(Roomy(|goal|)) ==>
                r == (if last then Finished else More) && out == goal && Stream() == tail
      ensures r.OtherBlock? <==> KindOf(old(Stream())) == 0 || KindOf(old(Stream())) == 2
      ensures KindOf(old(Stream())) == 3 ==> r.Corrupt?
      ensures r.More? ==> BlocksTraced(tr + [(out, Stream())])
      ensures r.Finished? ==> BlocksCoded(tr[0].0, tr[0].1, out, Stream())
    {
      ghost var v, was := Stream(), out;
      var final, kind := BlockStart(last, w);
      if kind == 0 || kind == 2 {
        return OtherBlock;
      }
      if kind == 3 {
        return Corrupt;
      }
      ghost var behind := Stream();
      var ok := ParseFixed(ts, tail, goal);
      if ok {
        BlockEnded(tr, final != 0, behind, was, v, out, Stream());
      }
      return if !ok then Corrupt else if final != 0 then Finished else More;
    }

    /** Whether the block is the last one, and its type. */
    method BlockStart(ghost last: bool, ghost w: nat) returns (final: nat, kind: nat)
      requires Valid()
      modifies `pos, `codeBuffer, `numBits
      ensures Valid() && StartRead(old(Stream()), last, w, final, kind, Stream())
    {
      FirstBits(Stream(), last, w);
      final := Receive(1);
      kind := Receive(2);
    }

    /** A block with fixed codes. */
    method ParseFixed(ghost ts: seq<Token>, ghost tail: nat, ghost goal: seq<byte>) returns (ok: bool)
      requires Valid() && Apart()
      modifies `pos, `codeBuffer, `numBits, `out, `capacity, TableArrays()
      ensures Valid() && capacity >= old(capacity) && Stream() <= old(Stream())
      ensures old(Ahead(out, ts, tail, goal, Stream())) && old(Roomy(|goal|)) ==> ok && out == goal && Stream() == tail
      ensures ok ==> BlockCoded(old(out), old(Stream()), out, Stream())
    {
      ok := BuildFixed();
      ok := ParseHuffmanBlock(ts, tail, goal);
    }

    /** The loop of `stbi__parse_zlib`. If the stream holds blocks of tokens, the last of them final, which turn
        the output into `goal`, all of them are expanded. */
    method ParseBlocks(ghost tss: seq<seq<Token>>, ghost tail: nat, ghost goal: seq<byte>) returns (r: Verdict)
      requires Valid() && Apart()
      modifies `pos, `codeBuffer, `numBits, `out, `capacity, TableArrays()
      ensures Valid() && !r.More?
      ensures old(BlocksAhead(out, tss, tail, goal, Stream())) && old(Roomy(|goal|)) ==>
                r.Finished? && out == goal && Stream() == tail
      ensures r.Finished? ==> BlocksCoded(old(out), old(Stream()), out, Stream())
    {
      ghost var tr := [(out, Stream())];
      ghost var promised := BlocksAhead(out, tss, tail, goal, Stream()) && Roomy(|goal|);
      ghost var left := tss;
      r := More;
      while r.More?
        invariant Valid()
        invariant promised && r.More? ==> BlocksAhead(out, left, tail, goal, Stream()) && Roomy(|goal|)
        invariant promised && !r.More? ==> r.Finished? && out == goal && Stream() == tail
        invariant Starts(tr, old(out), old(Stream()))
        invariant r.More? ==> BlocksTraced(tr) && Ends(tr, out, Stream())
        invariant r.Finished? ==> BlocksCoded(old(out), old(Stream()), out, Stream())
        decreases if r.More? then Stream() + 1 else 0
      {
        ghost var mid, next, w := out, 0, 0;
        if promised {
          mid, next, w := FirstBlock(out, left, tail, goal, Stream());
        }
        r := ParseBlock(if left == [] then [] else left[0], next, mid, |left| == 1, w, tr);
        tr := tr + [(out, Stream())];
        left := if left == [] then [] else left[1..];
      }
    }

    /** `stbi__parse_zlib` with a header. */
    method ParseZlib(ghost tss: seq<seq<Token>>, ghost tail: nat, ghost goal: seq<byte>) returns (r: Verdict)
      requires Valid() && Apart() && pos == 0 && out == []
      modifies `pos, `codeBuffer, `numBits, `out, `capacity, TableArrays()
      ensures Valid() && !r.More?
      ensures Whole(zbuffer, tss, tail, goal) && old(Roomy(|goal|)) ==> r.Finished? && out == goal
      ensures r.Finished? ==> WholeCoded(zbuffer, out)
    {
      var ok := ParseHeader();
      if !ok {
        return Corrupt;
      }
      ghost var behind := if |zbuffer| < 2 then [] else zbuffer[2..];
      assert zbuffer[pos..] == behind;
      r := ParseBody(tss, tail, goal, Little(behind));
      if r.Finished? {
        WholeDecoded(zbuffer, behind, out, Stream());
      }
    }

    /** All that comes behind the header. */
    method ParseBody(ghost tss: seq<seq<Token>>, ghost tail: nat, ghost goal: seq<byte>, ghost v: nat)
      returns (r: Verdict)
      requires Valid() && Apart() && v == Little(zbuffer[pos..])
      modifies `pos, `codeBuffer, `numBits, `out, `capacity, TableArrays()
      ensures Valid() && !r.More?
      ensures BlocksAhead(old(out), tss, tail, goal, v) && old(Roomy(|goal|)) ==> r.Finished? && out == goal
      ensures r.Finished? ==> BlocksCoded(old(out), v, out, Stream())
    {
      ClearBits();
      r := ParseBlocks(tss, tail, goal);
    }

    method ClearBits()
      requires pos <= |zbuffer| && |out| <= capacity && (expandable ==> capacity > 0)
      modifies `codeBuffer, `numBits
      ensures Valid() && Stream() == Little(zbuffer[pos..])
    {
      numBits, codeBuffer := 0, 0;
    }
  }

  /** The first of `c`, `2 * c`, `4 * c` and so on that is at least `n`. */
  function Doubled(c: nat, n: nat): (r: nat)
    ensures c > 0 ==> r >= n && (r == c || r < 2 * n)
    decreases if c == 0 || n <= c then 0 else n - c
  {
    if c == 0 || n <= c then c else Doubled(2 * c, n)
  }

  /** The stream holds the extra bits of the length of a match. */
  ghost predicate LengthAhead(t: Token, j: nat, rest: nat, v: nat) {
    t.Match? && LengthIndex(t.len, j) && v == PutLength(t.len, j, rest)
  }

  lemma ExtraBits(z: nat)
    ensures |LENGTH_EXTRA| == |LENGTH_BASE| == 31 && |DIST_EXTRA| == |DIST_BASE| == 32
    ensures z < 31 ==> LENGTH_EXTRA[z] <= 5
    ensures z < 32 ==> DIST_EXTRA[z] <= 13
  {
  }

  /** The stream holds the distance of a match. */
  ghost predicate DistanceAhead(t: Token, k: nat, rest: nat, v: nat) {
    && t.Match? && DistIndex(t.dist, k)
    && v == PutSymbol(FixedDistances(), k, PutDistance(t.dist, k, rest))
  }

  lemma ExtraRead(base: nat, eb: nat, x: nat, rest: nat)
    requires base <= x < base + Pow2(eb)
    ensures base + Low(Put(x - base, eb, rest), eb) == x && Shr(Put(x - base, eb, rest), eb) == rest
  {
    PutTake(x - base, eb, rest);
    LowFits(x - base, eb);
  }

  /** The same, with the entries of two tables. */
  lemma TableRead(base: nat, eb: nat, from: nat, bits: nat, x: nat, rest: nat)
    requires base == from && eb == bits && base <= x < base + Pow2(eb)
    ensures ReadBack(base, eb, Put(x - from, bits, rest), x, rest)
  {
    ExtraRead(base, eb, x, rest);
  }

  /** `x` is the base plus the first bits of the stream `v`, behind which it goes on with `rest`. */
  ghost predicate ReadBack(base: nat, eb: nat, v: nat, x: nat, rest: nat) {
    base + Low(v, eb) == x && Shr(v, eb) == rest
  }

  lemma LengthRange(len: nat, j: nat)
    requires LengthIndex(len, j)
    ensures |LENGTH_BASE| == |LENGTH_EXTRA| == 31 && LENGTH_BASE[j] == LENGTHC[j] && LENGTH_EXTRA[j] == LENGTHEB[j]
    ensures LENGTH_BASE[j] <= len < LENGTH_BASE[j] + Pow2(LENGTH_EXTRA[j])
  {
    LengthCodes(j);
  }

  lemma LengthRead(t: Token, j: nat, rest: nat)
    requires t.Match? && LengthIndex(t.len, j)
    ensures ReadBack(LENGTH_BASE[j], LENGTH_EXTRA[j], PutLength(t.len, j, rest), t.len, rest)
  {
    LengthRange(t.len, j);
    TableRead(LENGTH_BASE[j], LENGTH_EXTRA[j], LENGTHC[j], LENGTHEB[j], t.len, rest);
  }

  lemma DistanceDecoded(k: nat, rest: nat, d: int)
    requires k < 30
    ensures var v := PutSymbol(FixedDistances(), k, rest);
            && Matches(FixedDistances(), k, v) && Shr(v, 5) == rest
            && (d >= 0 && Matches(FixedDistances(), d, v) ==> d == k)
  {
    FixedDistancesOk();
    var v := PutSymbol(FixedDistances(), k, rest);
    PutSymbolMatches(FixedDistances(), k, rest);
    if d >= 0 && Matches(FixedDistances(), d, v) {
      PrefixFree(FixedDistances(), d, k, v);
    }
  }

  /** If the stream holds a distance, it is the distance that is read. */
  lemma DistanceSeen(t: Token, k: nat, rest: nat, v: nat, d: int)
    requires DistanceAhead(t, k, rest, v)
    requires if d < 0 then forall m :: !Matches(FixedDistances(), m, v) else Matches(FixedDistances(), d, v)
    ensures d == k
    ensures ReadBack(DIST_BASE[d], DIST_EXTRA[d], Shr(v, FixedDistances()[d]), t.dist, rest)
  {
    DistanceDecoded(k, PutDistance(t.dist, k, rest), d);
    DistanceRead(t, k, rest);
  }

  lemma DistanceShrinks(v: nat, d: nat)
    requires d < 32
    ensures DIST_EXTRA[d] <= 13 && Shr(Shr(v, FixedDistances()[d]), DIST_EXTRA[d]) <= v
  {
    ExtraBits(d);
    ShrLess(v, FixedDistances()[d]);
    ShrLess(Shr(v, FixedDistances()[d]), DIST_EXTRA[d]);
  }

  lemma DistanceRead(t: Token, k: nat, rest: nat)
    requires t.Match? && DistIndex(t.dist, k)
    ensures ReadBack(DIST_BASE[k], DIST_EXTRA[k], PutDistance(t.dist, k, rest), t.dist, rest)
  {
    DistanceRange(t.dist, k);
    TableRead(DIST_BASE[k], DIST_EXTRA[k], DISTC[k], DISTEB[k], t.dist, rest);
    assert PutDistance(t.dist, k, rest) == Put(t.dist - DISTC[k], DISTEB[k], rest);
  }

  lemma DistanceRange(dist: nat, k: nat)
    requires DistIndex(dist, k)
    ensures |DIST_BASE| == |DIST_EXTRA| == 32 && DIST_BASE[k] == DISTC[k] && DIST_EXTRA[k] == DISTEB[k]
    ensures DIST_BASE[k] <= dist < DIST_BASE[k] + Pow2(DIST_EXTRA[k])
  {
    DistCodes(k);
  }

  /******* What bits mean, whatever wrote them *******/

  /** The next `e` bits are `x - base`. */
  ghost predicate ExtraCoded(base: nat, e: nat, v: nat, x: nat, rest: nat) {
    base <= x < base + Pow2(e) && v == Put(x - base, e, rest)
  }

  ghost predicate LengthCoded(j: nat, v: nat, len: nat, rest: nat) {
    j < 31 && ExtraCoded(LENGTH_BASE[j], LENGTH_EXTRA[j], v, len, rest)
  }

  ghost predicate DistanceCoded(v: nat, dist: nat, rest: nat) {
    exists k: nat, mid: nat :: DistanceCodedBy(k, mid, v, dist, rest)
  }

  ghost predicate DistanceCodedBy(k: nat, mid: nat, v: nat, dist: nat, rest: nat) {
    k < 32 && v == PutSymbol(FixedDistances(), k, mid) && ExtraCoded(DIST_BASE[k], DIST_EXTRA[k], mid, dist, rest)
  }

  /** The output grows by `len` bytes from `dist` back; two unused codes have distance zero, which says nothing
      about these bytes. */
  ghost predicate Copied(out: seq<byte>, len: nat, dist: nat, now: seq<byte>) {
    && dist <= |out| && out <= now && |now| == |out| + len
    && (dist > 0 ==> now == Copy(out, len, dist))
  }

  ghost predicate MatchCoded(j: nat, out: seq<byte>, v: nat, now: seq<byte>, rest: nat, len: nat, dist: nat, mid: nat) {
    LengthCoded(j, v, len, mid) && DistanceCoded(mid, dist, rest) && Copied(out, len, dist, now)
  }

  ghost predicate MatchDone(j: nat, out: seq<byte>, v: nat, now: seq<byte>, rest: nat) {
    exists len, dist, mid :: MatchCoded(j, out, v, now, rest, len, dist, mid)
  }

  /** The stream `v` starts with symbol `m`, a literal or the length of a match, which turns the output into
      `now` and leaves the stream `rest`. */
  ghost predicate StepBy(m: nat, w: nat, out: seq<byte>, v: nat, now: seq<byte>, rest: nat) {
    && m < 288 && v == PutSymbol(FixedLengths(), m, w)
    && if m < 256 then now == out + [m] && rest == w else m > 256 && MatchDone(m - 257, out, w, now, rest)
  }

  ghost predicate Step(out: seq<byte>, v: nat, now: seq<byte>, rest: nat) {
    exists m: nat, w: nat :: StepBy(m, w, out, v, now, rest)
  }

  /** The output and the stream behind each symbol, or behind each block. */
  type Trace = seq<(seq<byte>, nat)>

  ghost predicate Starts(tr: Trace, out: seq<byte>, v: nat) {
    tr != [] && tr[0] == (out, v)
  }

  ghost predicate Ends(tr: Trace, out: seq<byte>, v: nat) {
    tr != [] && tr[|tr| - 1] == (out, v)
  }

  ghost predicate StepAt(tr: Trace, i: nat)
    requires i + 1 < |tr|
  {
    Step(tr[i].0, tr[i].1, tr[i + 1].0, tr[i + 1].1)
  }

  /** Every symbol does what it says. */
  ghost predicate Traced(tr: Trace) {
    forall i | 0 <= i < |tr| - 1 :: StepAt(tr, i)
  }

  lemma TraceOn(tr: Trace, out: seq<byte>, v: nat, now: seq<byte>, rest: nat)
    requires Traced(tr) && Ends(tr, out, v) && Step(out, v, now, rest)
    ensures Traced(tr + [(now, rest)])
  {
    var more := tr + [(now, rest)];
    forall i | 0 <= i < |more| - 1
      ensures StepAt(more, i)
    {
      if i < |tr| - 1 {
        assert StepAt(tr, i) && more[i] == tr[i] && more[i + 1] == tr[i + 1];
      } else {
        assert more[i] == (out, v) && more[i + 1] == (now, rest);
      }
    }
  }

  /** The stream starts with the symbols of a block and the symbol for its end. */
  ghost predicate BlockCoded(out: seq<byte>, v: nat, now: seq<byte>, rest: nat) {
    exists tr: Trace :: BlockTraced(tr, out, v, now, rest)
  }

  ghost predicate BlockTraced(tr: Trace, out: seq<byte>, v: nat, now: seq<byte>, rest: nat) {
    Traced(tr) && Starts(tr, out, v) && Ends(tr, now, PutSymbol(FixedLengths(), 256, rest))
  }

  /** The stream starts with a block with fixed codes. */
  ghost predicate FixedCoded(last: bool, out: seq<byte>, v: nat, now: seq<byte>, rest: nat) {
    exists w: nat :: v == FixedStart(last, w) && BlockCoded(out, w, now, rest)
  }

  ghost predicate FixedAt(tr: Trace, i: nat)
    requires i + 1 < |tr|
  {
    FixedCoded(false, tr[i].0, tr[i].1, tr[i + 1].0, tr[i + 1].1)
  }

  /** One block behind the other, none of them final. */
  ghost predicate BlocksTraced(tr: Trace) {
    forall i | 0 <= i < |tr| - 1 :: FixedAt(tr, i)
  }

  lemma BlocksTracedOn(tr: Trace, out: seq<byte>, v: nat, now: seq<byte>, rest: nat)
    requires BlocksTraced(tr) && Ends(tr, out, v) && FixedCoded(false, out, v, now, rest)
    ensures BlocksTraced(tr + [(now, rest)])
  {
    var more := tr + [(now, rest)];
    forall i | 0 <= i < |more| - 1
      ensures FixedAt(more, i)
    {
      if i < |tr| - 1 {
        assert FixedAt(tr, i) && more[i] == tr[i] && more[i + 1] == tr[i + 1];
      } else {
        assert more[i] == (out, v) && more[i + 1] == (now, rest);
      }
    }
  }

  /** Any number of blocks, and then a final one. */
  ghost predicate BlocksCoded(out: seq<byte>, v: nat, now: seq<byte>, rest: nat) {
    exists tr: Trace :: BlocksEnd(tr, out, v, now, rest)
  }

  ghost predicate BlocksEnd(tr: Trace, out: seq<byte>, v: nat, now: seq<byte>, rest: nat) {
    && BlocksTraced(tr) && Starts(tr, out, v)
    && FixedCoded(true, tr[|tr| - 1].0, tr[|tr| - 1].1, now, rest)
  }

  lemma BlockEnded(tr: Trace, last: bool, w: nat, out: seq<byte>, v: nat, now: seq<byte>, rest: nat)
    requires BlocksTraced(tr) && Ends(tr, out, v) && v == FixedStart(last, w) && BlockCoded(out, w, now, rest)
    ensures if last then BlocksCoded(tr[0].0, tr[0].1, now, rest) else BlocksTraced(tr + [(now, rest)])
  {
    assert FixedCoded(last, out, v, now, rest);
    if last {
      assert BlocksEnd(tr, tr[0].0, tr[0].1, now, rest);
    } else {
      BlocksTracedOn(tr, out, v, now, rest);
    }
  }

  lemma MatchTraced(tr: Trace, j: nat, w: nat, out: seq<byte>, v: nat, now: seq<byte>, rest: nat, len: nat, dist: nat,
                    mid: nat)
    requires Traced(tr) && Ends(tr, out, v) && j < 31 && v == PutSymbol(FixedLengths(), 257 + j, w)
    requires MatchCoded(j, out, w, now, rest, len, dist, mid)
    ensures Traced(tr + [(now, rest)])
  {
    assert StepBy(257 + j, w, out, v, now, rest);
    TraceOn(tr, out, v, now, rest);
  }

  lemma LiteralTraced(tr: Trace, z: byte, out: seq<byte>, v: nat, now: seq<byte>, rest: nat)
    requires Traced(tr) && Ends(tr, out, v) && v == PutSymbol(FixedLengths(), z, rest) && now == out + [z]
    ensures Traced(tr + [(now, rest)])
  {
    assert StepBy(z, rest, out, v, now, rest);
    TraceOn(tr, out, v, now, rest);
  }

  /** The input is a zlib stream of such blocks; past its end every byte is zero. */
  ghost predicate WholeCoded(input: seq<byte>, out: seq<byte>) {
    var v := Little(if |input| < 2 then [] else input[2..]);
    HeaderAt(input, 0) && exists rest: nat :: BlocksCoded([], v, out, rest)
  }

  lemma WholeDecoded(input: seq<byte>, behind: seq<byte>, out: seq<byte>, rest: nat)
    requires HeaderAt(input, 0) && BlocksCoded([], Little(behind), out, rest)
    requires behind == if |input| < 2 then [] else input[2..]
    ensures WholeCoded(input, out)
  {
  }

  lemma {:induction false} LowShr(v: nat, n: nat)
    ensures v == Put(Low(v, n), n, Shr(v, n))
  {
    if n > 0 {
      LowShr(v / 2, n - 1);
    }
  }

  lemma ExtraSplit(base: nat, e: nat, v: nat)
    ensures ExtraCoded(base, e, v, base + Low(v, e), Shr(v, e))
  {
    LowBound(v, e);
    LowShr(v, e);
  }

  /** A stream that matches a symbol starts with its code. */
  lemma SymbolSplit(lens: seq<nat>, m: nat, v: nat)
    requires Matches(lens, m, v)
    ensures v == PutSymbol(lens, m, Shr(v, lens[m]))
  {
    LowShr(v, lens[m]);
  }

  datatype Round = GoOn | Done | Failed

  /** The stream holds the tokens `left`, which turn the output into `goal`, and then `tail`. */
  ghost predicate Ahead(out: seq<byte>, left: seq<Token>, tail: nat, goal: seq<byte>, v: nat) {
    TokensOk(out, left) && Expand(out, left) == goal && BlockStream(left, tail, v)
  }

  /** The symbol at the head of a block stream is the one that is decoded. */
  lemma SymbolDecoded(m: nat, rest: nat, z: int)
    requires m < 288
    ensures var v := PutSymbol(FixedLengths(), m, rest);
            && Matches(FixedLengths(), m, v) && Shr(v, FixedLength(m)) == rest
            && (z >= 0 && Matches(FixedLengths(), z, v) ==> z == m)
  {
    FixedLengthsOk();
    var v := PutSymbol(FixedLengths(), m, rest);
    PutSymbolMatches(FixedLengths(), m, rest);
    if z >= 0 && Matches(FixedLengths(), z, v) {
      PrefixFree(FixedLengths(), z, m, v);
    }
  }

  /** The parts of a match in the stream. */
  lemma MatchParts(t: Token, v: nat, rest: nat) returns (j: nat, k: nat, mid: nat, w: nat)
    requires t.Match? && TokenStream(t, rest, v)
    ensures LengthAhead(t, j, mid, w) && DistanceAhead(t, k, rest, mid) && v == PutSymbol(FixedLengths(), 257 + j, w)
  {
    j, k :| LengthIndex(t.len, j) && DistIndex(t.dist, k) && v == MatchStream(t.len, t.dist, j, k, rest);
    mid := PutSymbol(FixedDistances(), k, PutDistance(t.dist, k, rest));
    w := PutLength(t.len, j, mid);
  }

  lemma MatchDecoded(t: Token, v: nat, rest: nat, z: int) returns (j: nat, k: nat, mid: nat)
    requires t.Match? && TokenStream(t, rest, v) && (z >= 0 ==> Matches(FixedLengths(), z, v))
    ensures Matches(FixedLengths(), 257 + j, v) && LengthAhead(t, j, mid, Shr(v, FixedLength(257 + j)))
            && DistanceAhead(t, k, rest, mid)
    ensures z >= 0 ==> z == 257 + j
  {
    var w: nat;
    j, k, mid, w := MatchParts(t, v, rest);
    SymbolDecoded(257 + j, w, z);
  }

  lemma HeadDecoded(left: seq<Token>, tail: nat, v: nat, z: int) returns (j: nat, k: nat, mid: nat, after: nat)
    requires BlockStream(left, tail, v)
    requires if z < 0 then forall m :: !Matches(FixedLengths(), m, v) else Matches(FixedLengths(), z, v)
    ensures 0 <= z < 288
    ensures var rest := Shr(v, FixedLength(z));
            if left == [] then z == 256 && rest == tail
            else if left[0].Literal? then z == left[0].value && BlockStream(left[1..], tail, rest)
            else z == 257 + j && LengthAhead(left[0], j, mid, rest) && DistanceAhead(left[0], k, after, mid) &&
                 BlockStream(left[1..], tail, after)
  {
    j, k, mid, after := 0, 0, 0, 0;
    if left == [] {
      SymbolDecoded(256, tail, z);
    } else {
      after :| BlockStream(left[1..], tail, after) && TokenStream(left[0], after, v);
      if left[0].Literal? {
        SymbolDecoded(left[0].value, after, z);
      } else {
        j, k, mid := MatchDecoded(left[0], v, after, z);
      }
    }
  }

  /** Symbol `z` belongs to the first token of a block, for which there is room in `goal`; `rest` is the
      stream behind the symbol. */
  ghost predicate HeadRead(out: seq<byte>, left: seq<Token>, tail: nat, goal: seq<byte>, z: int, j: nat, k: nat,
                           mid: nat, after: nat, rest: nat)
  {
    && 0 <= z < 288 && TokensOk(out, left) && Expand(out, left) == goal
    && if left == [] then z == 256 && rest == tail
       else
         && |out| + (if left[0].Literal? then 1 else left[0].len) <= |goal|
         && if left[0].Literal? then z == left[0].value && BlockStream(left[1..], tail, rest)
            else && z == 257 + j && LengthAhead(left[0], j, mid, rest) && DistanceAhead(left[0], k, after, mid)
                 && BlockStream(left[1..], tail, after)
  }

  /** With the first token taken, the others are ahead. */
  lemma HeadTaken(out: seq<byte>, left: seq<Token>, tail: nat, goal: seq<byte>, z: int, j: nat, k: nat, mid: nat,
                  after: nat, rest: nat)
    ensures HeadRead(out, left, tail, goal, z, j, k, mid, after, rest) && left != [] ==>
              TokenOk(out, left[0])
              && Ahead(Apply(out, left[0]), left[1..], tail, goal, if left[0].Literal? then rest else after)
  {
  }

  /** What the first token needs fits into what all tokens need. */
  lemma HeadFits(out: seq<byte>, left: seq<Token>, goal: seq<byte>)
    requires TokensOk(out, left) && Expand(out, left) == goal
    ensures left != [] ==> |out| + (if left[0].Literal? then 1 else left[0].len) <= |goal|
  {
    if left != [] {
      ExpandGrows(Apply(out, left[0]), left[1..]);
      if left[0].Match? {
        CopyGrows(out, left[0].len, left[0].dist);
      }
    }
  }

  /** Zeros decode as the end of the block, so every other symbol makes the stream smaller. */
  lemma NotEndShrinks(v: nat, z: int)
    requires z >= 0 ==> Matches(FixedLengths(), z, v)
    ensures z >= 0 && z != 256 ==> Shr(v, FixedLengths()[z]) < v
  {
    if z >= 0 {
      ShrLess(v, FixedLengths()[z]);
      if v == 0 {
        FixedLengthsOk();
        ZeroMatchesEnd();
        PrefixFree(FixedLengths(), z, 256, 0);
      }
    }
  }

  lemma ZeroMatchesEnd()
    ensures Matches(FixedLengths(), 256, 0)
  {
    FixedCode(256);
    assert FixedLengths()[256] == 7;
    assert Low(0, 7) == Rev(0, 7);
  }

  datatype Verdict = More | Finished | Corrupt | OtherBlock

  /** The check value is right, there is no preset dictionary, and the method is DEFLATE. */
  predicate HeaderOk(cmf: nat, flg: nat) {
    (cmf * 256 + flg) % 31 == 0 && flg / 32 % 2 == 0 && cmf % 16 == 8
  }


  /** Past the end every byte is zero. */
  function ByteAt(input: seq<byte>, pos: nat): byte {
    if pos < |input| then input[pos] else 0
  }

  ghost predicate HeaderAt(input: seq<byte>, pos: nat) {
    HeaderOk(ByteAt(input, pos), ByteAt(input, pos + 1))
  }

  /** The bits in front of a block with fixed codes. */
  ghost function FixedStart(last: bool, w: nat): nat {
    Put(if last then 1 else 0, 1, Put(1, 2, w))
  }

  /** The stream holds blocks of tokens, the last of them final, which turn the output into `goal`, and then
      `tail`. */
  ghost predicate BlocksAhead(out: seq<byte>, tss: seq<seq<Token>>, tail: nat, goal: seq<byte>, v: nat)
    decreases |tss|
  {
    tss != [] && exists mid, next: nat, w: nat :: BlocksSplit(out, tss, tail, goal, v, mid, next, w)
  }

  /** The first block turns the output into `mid` and leaves the stream `next`. */
  ghost predicate BlocksSplit(out: seq<byte>, tss: seq<seq<Token>>, tail: nat, goal: seq<byte>, v: nat,
                              mid: seq<byte>, next: nat, w: nat)
    requires tss != []
    decreases |tss|, 0
  {
    && v == FixedStart(|tss| == 1, w) && Ahead(out, tss[0], next, mid, w)
    && if |tss| == 1 then mid == goal && next == tail else BlocksAhead(mid, tss[1..], tail, goal, next)
  }

  /** The header that the compressor writes. */
  lemma OwnHeaderOk(input: seq<byte>)
    requires |input| >= 2 && input[..2] == [0x78, 0x5e]
    ensures HeaderAt(input, 0)
  {
    assert input[0] == input[..2][0] && input[1] == input[..2][1];
  }

  /** A stream of one block. */
  lemma OneBlock(ts: seq<Token>, tail: nat, goal: seq<byte>, v: nat, w: nat)
    requires Ahead([], ts, tail, goal, w) && v == FixedStart(true, w)
    ensures BlocksAhead([], [ts], tail, goal, v)
  {
    assert BlocksSplit([], [ts], tail, goal, v, goal, tail, w);
  }

  lemma FirstBlock(out: seq<byte>, tss: seq<seq<Token>>, tail: nat, goal: seq<byte>, v: nat)
    returns (mid: seq<byte>, next: nat, w: nat)
    requires BlocksAhead(out, tss, tail, goal, v)
    ensures tss != [] && BlocksSplit(out, tss, tail, goal, v, mid, next, w) && |mid| <= |goal|
  {
    mid, next, w :| BlocksSplit(out, tss, tail, goal, v, mid, next, w);
    if |tss| > 1 {
      BlocksGrow(mid, tss[1..], tail, goal, next);
    }
  }

  lemma {:induction false} BlocksGrow(out: seq<byte>, tss: seq<seq<Token>>, tail: nat, goal: seq<byte>, v: nat)
    requires BlocksAhead(out, tss, tail, goal, v)
    ensures |out| <= |goal|
    decreases |tss|
  {
    var mid, next: nat, w: nat :| BlocksSplit(out, tss, tail, goal, v, mid, next, w);
    ExpandGrows(out, tss[0]);
    if |tss| > 1 {
      BlocksGrow(mid, tss[1..], tail, goal, next);
    }
  }

  /** The type of the block that comes next. */
  ghost function KindOf(v: nat): nat {
    Low(Shr(v, 1), 2)
  }

  /** What the three bits in front of a block say, and the stream behind them. */
  ghost predicate StartRead(v: nat, last: bool, w: nat, final: nat, kind: nat, now: nat) {
    && kind == KindOf(v) < 4 && now <= v && (kind == 1 ==> now < v && v == FixedStart(final != 0, now))
    && (v == FixedStart(last, w) ==> (final != 0 <==> last) && kind == 1 && now == w)
  }

  lemma FirstBits(v: nat, last: bool, w: nat)
    ensures StartRead(v, last, w, Low(v, 1), Low(Shr(v, 1), 2), Shr(Shr(v, 1), 2))
  {
    LowBound(Shr(v, 1), 2);
    Pow2Table();
    ShrLess(v, 1);
    ShrLess(Shr(v, 1), 2);
    PutTake(if last then 1 else 0, 1, Put(1, 2, w));
    PutTake(1, 2, w);
    StartSplit(v);
  }

  lemma StartSplit(v: nat)
    ensures Low(Shr(v, 1), 2) == 1 ==> v == FixedStart(Low(v, 1) != 0, Shr(Shr(v, 1), 2))
  {
    LowShr(v, 1);
    LowShr(Shr(v, 1), 2);
  }

  /** The input is a zlib stream of blocks with fixed codes. */
  ghost predicate Whole(input: seq<byte>, tss: seq<seq<Token>>, tail: nat, data: seq<byte>) {
    |input| >= 2 && HeaderAt(input, 0) && BlocksAhead([], tss, tail, data, Little(input[2..]))
  }

  ghost predicate Encodes(input: seq<byte>, data: seq<byte>) {
    exists tss, tail :: Whole(input, tss, tail, data)
  }

  ghost predicate Fits(data: seq<byte>, capacity: nat, expandable: bool, available: nat) {
    |data| <= capacity || (expandable && 2 * |data| <= available)
  }

  /** Decoding into a buffer of `capacity` bytes, which may grow up to `available` bytes. */
  method Decompress(input: seq<byte>, capacity: nat, expandable: bool, available: nat, ghost data: seq<byte>)
    returns (r: Verdict, out: seq<byte>)
    requires expandable ==> capacity > 0
    ensures Encodes(input, data) && Fits(data, capacity, expandable, available) ==> r.Finished? && out == data
    ensures r.Finished? ==> WholeCoded(input, out)
  {
    var z := new ZBuf(input, capacity, expandable, available);
    ghost var tss: seq<seq<Token>>, tail: nat := [], 0;
    if Encodes(input, data) {
      tss, tail :| Whole(input, tss, tail, data);
    }
    r := z.ParseZlib(tss, tail, data);
    out := z.out;
  }
}

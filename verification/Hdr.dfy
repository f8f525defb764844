/**
 Run-length encoded scanlines of Radiance images: four component rows, each written as packets that
 repeat a byte or list bytes, and the loop that reads them back.
 */
module Hdr {
  import opened Options
  import opened Bits

  datatype Packet = Run(len: nat, value: byte) | Dump(data: seq<byte>)

  predicate PacketOk(p: Packet) {
    match p
    case Run(len, _) => 1 <= len <= 127
    case Dump(data) => 1 <= |data| <= 128
  }

  /** The length byte says which kind of packet follows: above 128, a run. */
  function PacketBytes(p: Packet): (r: seq<byte>)
    requires PacketOk(p)
    ensures |r| >= 2 && (p.Run? <==> r[0] > 128) && r[0] != 0
  {
    match p
    case Run(len, value) => [len + 128, value]
    case Dump(data) => [|data|] + data
  }

  function Repeat(len: nat, value: byte): (r: seq<byte>)
    ensures |r| == len && forall i | 0 <= i < len :: r[i] == value
  {
    seq(len, _ => value)
  }

  function PacketData(p: Packet): (r: seq<byte>)
    ensures PacketOk(p) ==> |r| > 0
  {
    match p
    case Run(len, value) => Repeat(len, value)
    case Dump(data) => data
  }

  ghost predicate AllOk(ps: seq<Packet>) {
    forall i | 0 <= i < |ps| :: PacketOk(ps[i])
  }

  function Bytes(ps: seq<Packet>): seq<byte>
    requires AllOk(ps)
  {
    if ps == [] then [] else PacketBytes(ps[0]) + Bytes(ps[1..])
  }

  function Data(ps: seq<Packet>): seq<byte> {
    if ps == [] then [] else PacketData(ps[0]) + Data(ps[1..])
  }

  lemma {:induction false} Snoc(ps: seq<Packet>, p: Packet)
    requires AllOk(ps) && PacketOk(p)
    ensures AllOk(ps + [p]) && Bytes(ps + [p]) == Bytes(ps) + PacketBytes(p)
            && Data(ps + [p]) == Data(ps) + PacketData(p)
  {
    if ps == [] {
      assert ps + [p] == [p] && [p][1..] == [];
    } else {
      Snoc(ps[1..], p);
      assert (ps + [p])[1..] == ps[1..] + [p];
      Assoc(PacketBytes(ps[0]), Bytes(ps[1..]), PacketBytes(p));
      Assoc(PacketData(ps[0]), Data(ps[1..]), PacketData(p));
    }
  }

  lemma Assoc(a: seq<byte>, b: seq<byte>, c: seq<byte>)
    ensures a + b + c == a + (b + c)
  {
  }

  /******* The writer *******/

  /** Packets for the first `x` bytes of a row. */
  ghost predicate Packed(comp: seq<byte>, x: nat, out: seq<byte>, ps: seq<Packet>) {
    x <= |comp| && AllOk(ps) && out == Bytes(ps) && Data(ps) == comp[..x]
  }

  lemma OneMore(comp: seq<byte>, x: nat, out: seq<byte>, ps: seq<Packet>, p: Packet)
    requires Packed(comp, x, out, ps) && PacketOk(p) && x + |PacketData(p)| <= |comp|
             && PacketData(p) == comp[x..x + |PacketData(p)|]
    ensures Packed(comp, x + |PacketData(p)|, out + PacketBytes(p), ps + [p])
  {
    Snoc(ps, p);
    assert comp[..x + |PacketData(p)|] == comp[..x] + comp[x..x + |PacketData(p)|];
  }

  /** The start of the first run of three, or the end of the row. */
  method FindRun(comp: seq<byte>, x: nat) returns (r: nat)
    requires x <= |comp|
    ensures x <= r <= |comp| && (r + 2 < |comp| ==> comp[r] == comp[r + 1] == comp[r + 2])
            && (r + 2 >= |comp| ==> r == |comp|)
    ensures forall q | x <= q < r && q + 2 < |comp| :: !(comp[q] == comp[q + 1] && comp[q] == comp[q + 2])
  {
    r := x;
    while r + 2 < |comp|
      invariant x <= r <= |comp|
      invariant forall q | x <= q < r && q + 2 < |comp| :: !(comp[q] == comp[q + 1] && comp[q] == comp[q + 2])
    {
      if comp[r] == comp[r + 1] && comp[r] == comp[r + 2] {
        break;
      }
      r := r + 1;
    }
    if r + 2 >= |comp| {
      r := |comp|;
    }
  }

  /** Three equal bytes start at `q`. */
  ghost predicate Triple(comp: seq<byte>, q: nat) {
    q + 2 < |comp| && comp[q] == comp[q + 1] == comp[q + 2]
  }

  /** How packet `p`, for the bytes from `at` on, is cut: no three equal bytes start in a dump, which ends after 128
      bytes, at the end of the row or before three equal bytes; a run starts with three equal bytes or goes on
      where one of 127 bytes ended, and ends after 127 bytes, at the end of the row or before another byte. */
  ghost predicate CutAt(comp: seq<byte>, at: nat, before: Option<Packet>, p: Packet) {
    var end := at + |PacketData(p)|;
    && end <= |comp|
    && match p
       case Dump(data) =>
         && (forall q | at <= q < end :: !Triple(comp, q))
         && (|data| == 128 || end == |comp| || Triple(comp, end))
       case Run(len, v) =>
         && (Triple(comp, at) || before == Some(Run(127, v)))
         && (len == 127 || end == |comp| || comp[end] != v)
  }

  ghost function LastPacket(ps: seq<Packet>): Option<Packet> {
    if ps == [] then None else Some(ps[|ps| - 1])
  }

  /** All packets are cut like that. */
  ghost predicate Cut(comp: seq<byte>, ps: seq<Packet>) {
    forall k | 0 <= k < |ps| :: CutIn(comp, ps, k)
  }

  ghost predicate CutIn(comp: seq<byte>, ps: seq<Packet>, k: nat)
    requires k < |ps|
  {
    CutAt(comp, |Data(ps[..k])|, LastPacket(ps[..k]), ps[k])
  }

  lemma CutOn(comp: seq<byte>, ps: seq<Packet>, p: Packet)
    requires Cut(comp, ps) && CutAt(comp, |Data(ps)|, LastPacket(ps), p)
    ensures Cut(comp, ps + [p])
  {
    var qs := ps + [p];
    forall k | 0 <= k < |qs|
      ensures CutIn(comp, qs, k)
    {
      if k < |ps| {
        assert CutIn(comp, ps, k) && qs[..k] == ps[..k];
      } else {
        assert qs[..k] == ps;
      }
    }
  }

  /** One more packet that is cut like that. */
  lemma OneMoreCut(comp: seq<byte>, x: nat, out: seq<byte>, ps: seq<Packet>, p: Packet)
    requires Packed(comp, x, out, ps) && Cut(comp, ps) && PacketOk(p) && CutAt(comp, x, LastPacket(ps), p)
    requires PacketData(p) == comp[x..x + |PacketData(p)|]
    ensures Packed(comp, x + |PacketData(p)|, out + PacketBytes(p), ps + [p]) && Cut(comp, ps + [p])
  {
    OneMore(comp, x, out, ps, p);
    assert |Data(ps)| == x;
    CutOn(comp, ps, p);
  }

  /** Dumps of at most 128 bytes, up to `r`. */
  method WriteDumps(comp: seq<byte>, x: nat, r: nat, out: seq<byte>, ghost ps: seq<Packet>)
    returns (now: seq<byte>, ghost qs: seq<Packet>)
    requires x <= r <= |comp| && Packed(comp, x, out, ps) && Cut(comp, ps)
    requires (forall q | x <= q < r :: !Triple(comp, q)) && (r == |comp| || Triple(comp, r))
    ensures Packed(comp, r, now, qs) && Cut(comp, qs)
  {
    now, qs := out, ps;
    var at := x;
    while at < r
      invariant x <= at <= r && Packed(comp, at, now, qs) && Cut(comp, qs)
    {
      var len := if r - at > 128 then 128 else r - at;
      OneMoreCut(comp, at, now, qs, Dump(comp[at..at + len]));
      qs := qs + [Dump(comp[at..at + len])];
      now := now + ([len] + comp[at..at + len]);
      at := at + len;
    }
  }

  lemma OneRunMore(comp: seq<byte>, x: nat, r: nat, at: nat, len: nat, out: seq<byte>, ps: seq<Packet>)
    requires x <= at < r <= |comp| && (forall i | x <= i < r :: comp[i] == comp[x]) && Packed(comp, at, out, ps)
    requires Cut(comp, ps) && Triple(comp, x) && (r == |comp| || comp[r] != comp[x])
    requires x < at ==> LastPacket(ps) == Some(Run(127, comp[x]))
    requires len == if r - at > 127 then 127 else r - at
    ensures Packed(comp, at + len, out + [len + 128, comp[at]], ps + [Run(len, comp[at])])
    ensures Cut(comp, ps + [Run(len, comp[at])])
  {
    RunData(comp, at, len);
    RunCut(comp, x, r, at, len, LastPacket(ps));
    OneMoreCut(comp, at, out, ps, Run(len, comp[at]));
  }

  lemma RunData(comp: seq<byte>, at: nat, len: nat)
    requires 0 < len && at + len <= |comp| && forall i | at <= i < at + len :: comp[i] == comp[at]
    ensures PacketData(Run(len, comp[at])) == comp[at..at + len]
  {
  }

  lemma RunCut(comp: seq<byte>, x: nat, r: nat, at: nat, len: nat, before: Option<Packet>)
    requires x <= at < r <= |comp| && (forall i | x <= i < r :: comp[i] == comp[x])
    requires Triple(comp, x) && (r == |comp| || comp[r] != comp[x])
    requires x < at ==> before == Some(Run(127, comp[x]))
    requires len == if r - at > 127 then 127 else r - at
    ensures CutAt(comp, at, before, Run(len, comp[at]))
  {
    assert comp[at] == comp[x];
  }

  /** Runs of at most 127 bytes, up to `r`; their length byte fits. */
  method WriteRuns(comp: seq<byte>, x: nat, r: nat, out: seq<byte>, ghost ps: seq<Packet>)
    returns (now: seq<byte>, ghost qs: seq<Packet>)
    requires x < r <= |comp| && Packed(comp, x, out, ps) && forall i | x <= i < r :: comp[i] == comp[x]
    requires Cut(comp, ps) && Triple(comp, x) && (r == |comp| || comp[r] != comp[x])
    ensures Packed(comp, r, now, qs) && Cut(comp, qs)
  {
    now, qs := out, ps;
    var at := x;
    while at < r
      invariant x <= at <= r && Packed(comp, at, now, qs) && Cut(comp, qs)
      invariant x < at < r ==> LastPacket(qs) == Some(Run(127, comp[x]))
    {
      var len := if r - at > 127 then 127 else r - at;
      OneRunMore(comp, x, r, at, len, now, qs);
      qs := qs + [Run(len, comp[at])];
      now := now + [len + 128, comp[at]];
      at := at + len;
    }
  }

  /** The first byte after the run at `x`. */
  method RunEnd(comp: seq<byte>, x: nat) returns (r: nat)
    requires x < |comp|
    ensures x < r <= |comp| && (forall i | x <= i < r :: comp[i] == comp[x]) && (r < |comp| ==> comp[r] != comp[x])
  {
    r := x;
    while r < |comp| && comp[r] == comp[x]
      invariant x <= r <= |comp| && forall i | x <= i < r :: comp[i] == comp[x]
    {
      r := r + 1;
    }
  }

  /** The bytes are packets, none of them empty, for the row. */
  ghost predicate Packs(out: seq<byte>, comp: seq<byte>) {
    exists ps: seq<Packet> :: AllOk(ps) && out == Bytes(ps) && Data(ps) == comp
  }

  /** One component row of `stbiw__write_hdr_scanline`. */
  method WriteComponent(comp: seq<byte>) returns (out: seq<byte>, ghost ps: seq<Packet>)
    ensures Packs(out, comp) && AllOk(ps) && out == Bytes(ps) && Data(ps) == comp && Cut(comp, ps)
  {
    out, ps := [], [];
    var x := 0;
    while x < |comp|
      invariant Packed(comp, x, out, ps) && Cut(comp, ps)
    {
      var r := FindRun(comp, x);
      out, ps := WriteDumps(comp, x, r, out, ps);
      x := r;
      if r + 2 < |comp| {
        r := RunEnd(comp, x);
        out, ps := WriteRuns(comp, x, r, out, ps);
        x := r;
      }
    }
    assert comp[..|comp|] == comp;
  }

  /** One scanline: the header with the width, then the four component rows. */
  method WriteScanline(width: nat, comps: seq<seq<byte>>) returns (out: seq<byte>, ghost pss: seq<seq<Packet>>)
    requires 8 <= width < 32768 && |comps| == 4 && forall c | 0 <= c < 4 :: |comps[c]| == width
    ensures |pss| == 4 && (forall c | 0 <= c < 4 :: AllOk(pss[c]) && Data(pss[c]) == comps[c] && Cut(comps[c], pss[c]))
    ensures out == [2, 2, width / 256, width % 256]
            + (Bytes(pss[0]) + (Bytes(pss[1]) + (Bytes(pss[2]) + Bytes(pss[3]))))
  {
    var header: seq<byte> := [2, 2, width / 256, width % 256];
    var o0, p0 := WriteComponent(comps[0]);
    var o1, p1 := WriteComponent(comps[1]);
    var o2, p2 := WriteComponent(comps[2]);
    var o3, p3 := WriteComponent(comps[3]);
    out, pss := header + (o0 + (o1 + (o2 + o3))), [p0, p1, p2, p3];
  }

  /******* The reader *******/

  /** `Hangs` stands for a loop that never ends (`RowHangs`). */
  datatype Verdict = Read | Corrupt | Flat | Hangs

  /******* The loop on the bytes *******/

  function Drop(left: seq<byte>, n: nat): (r: seq<byte>)
    ensures |r| == if n <= |left| then |left| - n else 0
  {
    if n <= |left| then left[n..] else []
  }

  /** The next byte; past the end it is zero. */
  function Next(left: seq<byte>): byte {
    if left == [] then 0 else left[0]
  }

  /** The next `n` bytes, filled up with zeros. */
  function Take(left: seq<byte>, n: nat): (r: seq<byte>)
    ensures |r| == n
  {
    if n == 0 then [] else [Next(left)] + Take(Drop(left, 1), n - 1)
  }

  /** One packet: its bytes and what is left, or `None` if it is longer than the row. */
  function Packet1(left: seq<byte>, nleft: nat): Option<(seq<byte>, seq<byte>)> {
    var count, rest := Next(left), Drop(left, 1);
    if count > 128 then
      if count - 128 > nleft then None else Some((Repeat(count - 128, Next(rest)), Drop(rest, 1)))
    else
      if count > nleft then None else Some((Take(rest, count), Drop(rest, count)))
  }

  /** The loop, round by round. */
  datatype Loop = Running(row: seq<byte>, left: seq<byte>) | Ended(verdict: Verdict)

  function Round(width: nat, s: Loop): Loop {
    if s.Ended? then s
    else if |s.row| >= width then Ended(Read)
    else
      match Packet1(s.left, width - |s.row|)
      case None => Ended(Corrupt)
      case Some(p) => Running(s.row + p.0, p.1)
  }

  function Rounds(width: nat, s: Loop, n: nat): Loop
    decreases n
  {
    if n == 0 then s else Rounds(width, Round(width, s), n - 1)
  }

  /** However many rounds there are, the loop goes on. */
  ghost predicate NeverEnds(width: nat, s: Loop) {
    forall n: nat :: Rounds(width, s, n).Running?
  }

  /** How the packets of the input fill a row of `nleft` bytes: all of it, not at all, or they run out. */
  datatype Filling = Full | Overfull | RunsOut

  function Fill(left: seq<byte>, nleft: nat): Filling
    decreases |left|
  {
    if nleft == 0 then Full
    else if left == [] then RunsOut
    else
      match Packet1(left, nleft)
      case None => Overfull
      case Some(p) => if |p.0| <= nleft then Fill(p.1, nleft - |p.0|) else Overfull
  }

  /** The row after the loop, which has `row` so far, and what is left then. */
  function FillRow(left: seq<byte>, row: seq<byte>, width: nat): (seq<byte>, seq<byte>)
    decreases |left|
  {
    if |row| >= width || left == [] then (row, left)
    else
      match Packet1(left, width - |row|)
      case None => (row, left)
      case Some(p) => FillRow(p.1, row + p.0, width)
  }

  /** A packet read at the end of the data adds nothing and leaves the position, so the loop is stuck. */
  lemma {:induction false} StuckAtEnd(width: nat, row: seq<byte>, n: nat)
    requires |row| < width
    ensures Rounds(width, Running(row, []), n) == Running(row, [])
  {
    assert Take([], 0) == [];
    assert Round(width, Running(row, [])) == Running(row + [], []) && row + [] == row;
    if n > 0 {
      StuckAtEnd(width, row, n - 1);
    }
  }

  lemma PacketFits(left: seq<byte>, nleft: nat)
    ensures Packet1(left, nleft).Some? ==> |Packet1(left, nleft).value.0| <= nleft
    ensures left != [] && Packet1(left, nleft).Some? ==> |Packet1(left, nleft).value.1| < |left|
  {
  }

  /** From here and from there the loop does the same. */
  ghost predicate SameRow(left: seq<byte>, row: seq<byte>, now: seq<byte>, longer: seq<byte>, width: nat) {
    && |row| <= width && |longer| <= width
    && Fill(left, width - |row|) == Fill(now, width - |longer|)
    && FillRow(left, row, width) == FillRow(now, longer, width)
  }

  lemma RowStep(left: seq<byte>, row: seq<byte>, width: nat)
    requires left != [] && |row| < width
    ensures var p := Packet1(left, width - |row|);
            if p.None? then Fill(left, width - |row|).Overfull?
            else SameRow(left, row, p.value.1, row + p.value.0, width)
  {
    PacketFits(left, width - |row|);
  }

  lemma {:induction false} RunsOutForever(width: nat, row: seq<byte>, left: seq<byte>, n: nat)
    requires |row| <= width && Fill(left, width - |row|).RunsOut?
    ensures Rounds(width, Running(row, left), n).Running?
    decreases n
  {
    if left == [] {
      StuckAtEnd(width, row, n);
    } else if n > 0 {
      PacketFits(left, width - |row|);
      var p := Packet1(left, width - |row|).value;
      RunsOutForever(width, row + p.0, p.1, n - 1);
    }
  }

  lemma {:induction false} OtherwiseEnds(width: nat, row: seq<byte>, left: seq<byte>) returns (n: nat)
    requires |row| <= width && !Fill(left, width - |row|).RunsOut?
    ensures Rounds(width, Running(row, left), n) == Ended(if Fill(left, width - |row|).Full? then Read else Corrupt)
    decreases |left|
  {
    var next := Round(width, Running(row, left));
    if next.Ended? {
      n := 1;
      assert Rounds(width, next, 0) == next;
    } else {
      PacketFits(left, width - |row|);
      var p := Packet1(left, width - |row|).value;
      var k := OtherwiseEnds(width, row + p.0, p.1);
      n := k + 1;
    }
  }

  /** The loop never ends if and only if the packets run out before the row is full. */
  lemma RowHangs(width: nat, left: seq<byte>)
    ensures NeverEnds(width, Running([], left)) <==> Fill(left, width).RunsOut?
  {
    if Fill(left, width).RunsOut? {
      forall n: nat
        ensures Rounds(width, Running([], left), n).Running?
      {
        RunsOutForever(width, [], left, n);
      }
    } else {
      var n := OtherwiseEnds(width, [], left);
    }
  }

  /** The verdict says how the packets fill the row, and `Hangs` that the loop never ends. */
  ghost predicate Judged(left: seq<byte>, width: nat, verdict: Verdict) {
    verdict == Verdict3(Fill(left, width)) && (verdict.Hangs? <==> NeverEnds(width, Running([], left)))
  }

  lemma FillJudged(left: seq<byte>, width: nat)
    ensures Judged(left, width, Verdict3(Fill(left, width)))
  {
    RowHangs(width, left);
  }

  /** A row of eight bytes of which two are there. */
  lemma TruncatedRowHangs()
    ensures NeverEnds(8, Running([], [130, 5]))
  {
    assert Drop(Drop([130, 5], 1), 1) == [];
    assert Packet1([130, 5], 8) == Some((Repeat(2, 5), []));
    assert Fill([], 6).RunsOut?;
    RowHangs(8, [130, 5]);
  }

  /** Data that ends behind the length of a dump is filled up with zeros instead. */
  lemma TruncatedDumpEnds(n: nat)
    requires 1 <= n <= 128
    ensures Fill([n], n).Full? && !NeverEnds(n, Running([], [n]))
  {
    assert Drop([n], 1) == [];
    assert Packet1([n], n) == Some((Take([], n), []));
    RowHangs(n, [n]);
  }

  /******* The reader itself *******/

  class Reader {
    const data: seq<byte>
    var pos: nat

    constructor (data: seq<byte>)
      ensures this.data == data && pos == 0
    {
      this.data, pos := data, 0;
    }

    /** What is left to read. */
    function Left(): seq<byte>
      reads this
    {
      if pos <= |data| then data[pos..] else []
    }

    /** `stbi__get8`: zero past the end. */
    method Get8() returns (b: byte)
      requires pos <= |data|
      modifies `pos
      ensures pos <= |data|
      ensures if old(Left()) == [] then b == 0 && pos == old(pos)
              else b == old(Left())[0] && Left() == old(Left())[1..] && pos == old(pos) + 1
    {
      if pos < |data| {
        b, pos := data[pos], pos + 1;
      } else {
        b := 0;
      }
    }

    /** The bytes of a dump. */
    method GetBytes(count: nat) returns (r: seq<byte>)
      requires pos <= |data|
      modifies `pos
      ensures pos <= |data| && pos >= old(pos) && r == Take(old(Left()), count) && Left() == Drop(old(Left()), count)
    {
      r := [];
      var z := 0;
      while z < count
        invariant 0 <= z <= count && old(pos) <= pos <= |data|
        invariant r + Take(Left(), count - z) == Take(old(Left()), count) && Left() == Drop(old(Left()), z)
      {
        TakeOne(r, Left(), count - z);
        DropOne(old(Left()), z);
        var b := Get8();
        r := r + [b];
        z := z + 1;
      }
    }

    /** One packet, for a row with `nleft` bytes to go. */
    method ReadPacket(nleft: nat) returns (verdict: Verdict, bytes: seq<byte>)
      requires pos <= |data|
      modifies `pos
      ensures old(pos) <= pos <= |data| && (old(pos) < |data| ==> old(pos) < pos)
      ensures match Packet1(old(Left()), nleft)
              case None => verdict.Corrupt?
              case Some(p) => verdict.Read? && bytes == p.0 && Left() == p.1
    {
      var count := Get8();
      if count > 128 {
        var value := Get8();
        count := count - 128;
        if count > nleft {
          return Corrupt, [];
        }
        bytes := Repeat(count, value);
      } else {
        if count > nleft {
          return Corrupt, [];
        }
        bytes := GetBytes(count);
      }
      verdict := Read;
    }

    /** One component row. */
    method ReadComponent(width: nat, ghost ps: seq<Packet>, ghost rest: seq<byte>)
      returns (verdict: Verdict, row: seq<byte>)
      requires pos <= |data|
      modifies `pos
      ensures pos <= |data| && (verdict.Read? ==> |row| == width)
      ensures Judged(old(Left()), width, verdict)
      ensures verdict.Hangs? ==> pos == |data| && |row| < width
      ensures verdict.Read? ==> FillRow(old(Left()), [], width) == (row, Left())
      ensures AllOk(ps) && |Data(ps)| == width && old(Left()) == Bytes(ps) + rest ==>
                verdict.Read? && row == Data(ps) && Left() == rest
    {
      FillJudged(Left(), width);
      if AllOk(ps) && |Data(ps)| == width && Left() == Bytes(ps) + rest {
        WrittenRow(ps, [], rest, width);
      }
      verdict, row := ReadPackets(width);
    }

    /** Packets until the row is full. */
    method ReadPackets(width: nat) returns (verdict: Verdict, row: seq<byte>)
      requires pos <= |data|
      modifies `pos
      ensures pos <= |data| && verdict == Verdict3(Fill(old(Left()), width))
      ensures verdict.Read? ==> |row| == width && FillRow(old(Left()), [], width) == (row, Left())
      ensures verdict.Hangs? ==> pos == |data| && |row| < width
    {
      row := [];
      while width - |row| > 0
        invariant pos <= |data| && SameRow(old(Left()), [], Left(), row, width)
        decreases |data| - pos
      {
        if pos == |data| {
          return Hangs, row;
        }
        var v, longer := ReadNext(width, row);
        if !v.Read? {
          return v, row;
        }
        row := longer;
      }
      verdict := Read;
    }

    /** One round of the loop, while there is data. */
    method ReadNext(width: nat, row: seq<byte>) returns (verdict: Verdict, longer: seq<byte>)
      requires pos < |data| && |row| < width
      modifies `pos
      ensures old(pos) < pos <= |data|
      ensures if verdict.Read? then SameRow(old(Left()), row, Left(), longer, width)
              else verdict.Corrupt? && Fill(old(Left()), width - |row|).Overfull?
    {
      RowStep(Left(), row, width);
      ghost var left := Left();
      var v, bytes := ReadPacket(width - |row|);
      verdict, longer := v, row + bytes;
      assert verdict.Read? ==> Packet1(left, width - |row|) == Some((bytes, Left()));
    }

    /** The four header bytes. */
    method ReadHeader(width: nat, ghost pss: seq<seq<Packet>>, ghost rest: seq<byte>) returns (verdict: Verdict)
      requires pos <= |data|
      modifies `pos
      ensures pos <= |data| && verdict == HeaderVerdict(old(Left()), width)
      ensures verdict.Read? ==> Left() == Drop(old(Left()), 4)
      ensures ScanlineOf(old(Left()), width, pss, rest) ==> verdict.Read? && RowsNext(Left(), width, pss, 0, rest)
    {
      if ScanlineOf(Left(), width, pss, rest) {
        HeaderBytes(Left(), width, pss, rest);
      }
      var c1 := Get8();
      var c2 := Get8();
      var high := Get8();
      if c1 != 2 || c2 != 2 || high >= 128 {
        return Flat;
      }
      var low := Get8();
      var len: int := high;
      len := 256 * len + low;
      return if len != width then Corrupt else Read;
    }

    /** One scanline of `width` pixels: the header is checked, then the four rows are read. */
    method ReadScanline(width: nat, ghost pss: seq<seq<Packet>>, ghost rest: seq<byte>)
      returns (verdict: Verdict, rows: seq<seq<byte>>)
      requires pos <= |data|
      modifies `pos
      ensures pos <= |data| && (verdict.Read? ==> Rows(width, rows, 4))
      ensures var v := HeaderVerdict(old(Left()), width);
              verdict == if v.Read? then RowsVerdict(Drop(old(Left()), 4), width, 0) else v
      ensures verdict.Read? ==> (rows, Left()) == FillRows(Drop(old(Left()), 4), width, 4)
      ensures ScanlineOf(old(Left()), width, pss, rest) ==> verdict.Read? && Left() == rest && RowsRead(rows, pss)
    {
      rows := [];
      verdict := ReadHeader(width, pss, rest);
      if verdict.Read? {
        verdict, rows := ReadRows(width, pss, rest);
      }
    }

    method ReadRows(width: nat, ghost pss: seq<seq<Packet>>, ghost rest: seq<byte>)
      returns (verdict: Verdict, rows: seq<seq<byte>>)
      requires pos <= |data|
      modifies `pos
      ensures pos <= |data| && (verdict.Read? ==> Rows(width, rows, 4))
      ensures verdict == RowsVerdict(old(Left()), width, 0)
      ensures verdict.Read? ==> (rows, Left()) == FillRows(old(Left()), width, 4)
      ensures RowsNext(old(Left()), width, pss, 0, rest) ==> verdict.Read? && Left() == rest && RowsRead(rows, pss)
    {
      ghost var written := RowsNext(Left(), width, pss, 0, rest);
      rows, verdict := [], Read;
      for k := 0 to 4
        invariant pos <= |data| && verdict.Read? && Rows(width, rows, k)
        invariant (rows, Left()) == FillRows(old(Left()), width, k)
        invariant RowsVerdict(old(Left()), width, k) == RowsVerdict(old(Left()), width, 0)
        invariant written ==> RowsNext(Left(), width, pss, k, rest) && RowsRead(rows, pss)
      {
        var row;
        verdict, row := ReadRow(width, k, pss, rest);
        if !verdict.Read? {
          return;
        }
        RowsGrow(width, rows, row, k);
        if written {
          RowsReadGrow(rows, row, pss);
        }
        rows := rows + [row];
      }
      if written {
        NoneNext(Left(), width, pss, 4, rest);
      }
    }

    method ReadRow(width: nat, k: nat, ghost pss: seq<seq<Packet>>, ghost rest: seq<byte>)
      returns (verdict: Verdict, row: seq<byte>)
      requires pos <= |data| && k < 4
      modifies `pos
      ensures pos <= |data| && (verdict.Read? ==> |row| == width) && verdict == Verdict3(Fill(old(Left()), width))
      ensures verdict.Read? ==> FillRow(old(Left()), [], width) == (row, Left())
      ensures RowsNext(old(Left()), width, pss, k, rest) ==>
                verdict.Read? && RowRead(row, pss[k]) && RowsNext(Left(), width, pss, k + 1, rest)
    {
      ghost var ps: seq<Packet>, after: seq<byte> := [], [];
      if RowsNext(Left(), width, pss, k, rest) {
        ps, after := pss[k], RowsFrom(pss, k + 1) + rest;
        Assoc(Bytes(pss[k]), RowsFrom(pss, k + 1), rest);
      }
      verdict, row := ReadComponent(width, ps, after);
    }
  }

  /** Byte `k` of what is left; past the end it is zero. */
  function ByteAt(left: seq<byte>, k: nat): byte {
    if k < |left| then left[k] else 0
  }

  /** Two bytes 2 and a length below 32768 announce the packets of a scanline, which must have the width. */
  function HeaderVerdict(left: seq<byte>, width: nat): Verdict {
    if ByteAt(left, 0) == 2 && ByteAt(left, 1) == 2 && ByteAt(left, 2) < 128 then
      var len: int := ByteAt(left, 2);
      if 256 * len + ByteAt(left, 3) == width then Read else Corrupt
    else Flat
  }

  /** The first `k` rows, each filled by its packets, and what is left then. */
  function FillRows(left: seq<byte>, width: nat, k: nat): (seq<seq<byte>>, seq<byte>) {
    if k == 0 then ([], left)
    else
      var before := FillRows(left, width, k - 1);
      var r := FillRow(before.1, [], width);
      (before.0 + [r.0], r.1)
  }

  /** What the four rows give, from row `k` on. */
  function RowsVerdict(left: seq<byte>, width: nat, k: nat): Verdict
    requires k <= 4
    decreases 4 - k
  {
    if k == 4 then Read
    else
      var v := Verdict3(Fill(FillRows(left, width, k).1, width));
      if v.Read? then RowsVerdict(left, width, k + 1) else v
  }

  function Verdict3(f: Filling): Verdict {
    match f
    case Full => Read
    case Overfull => Corrupt
    case RunsOut => Hangs
  }

  /** A written packet is read back. */
  lemma PacketReadBack(p: Packet, rest: seq<byte>, nleft: nat)
    requires PacketOk(p) && |PacketData(p)| <= nleft
    ensures Packet1(PacketBytes(p) + rest, nleft) == Some((PacketData(p), rest))
  {
    var left := PacketBytes(p) + rest;
    if p.Dump? {
      assert left[1..] == p.data + rest;
      TakeAll(p.data, rest);
    } else {
      assert left[1..][1..] == rest;
    }
  }

  lemma {:induction false} TakeAll(data: seq<byte>, rest: seq<byte>)
    ensures Take(data + rest, |data|) == data && Drop(data + rest, |data|) == rest
  {
    if data != [] {
      TakeAll(data[1..], rest);
      assert (data + rest)[1..] == data[1..] + rest;
    }
  }

  lemma TakeOne(r: seq<byte>, left: seq<byte>, n: nat)
    requires n > 0
    ensures r + Take(left, n) == r + [Next(left)] + Take(Drop(left, 1), n - 1)
  {
    Assoc(r, [Next(left)], Take(Drop(left, 1), n - 1));
  }

  lemma DropOne(left: seq<byte>, z: nat)
    ensures Drop(Drop(left, z), 1) == Drop(left, z + 1)
  {
  }

  /** A written row fills the row with its data. */
  lemma {:induction false} WrittenRow(qs: seq<Packet>, row: seq<byte>, rest: seq<byte>, width: nat)
    requires AllOk(qs) && |row| + |Data(qs)| == width
    ensures Fill(Bytes(qs) + rest, width - |row|).Full?
    ensures FillRow(Bytes(qs) + rest, row, width) == (row + Data(qs), rest)
    decreases |qs|
  {
    if |Data(qs)| == 0 {
      NoData(qs);
      assert row + [] == row && [] + rest == rest;
    } else {
      MoreBytes(qs);
      var p := qs[0];
      Assoc(PacketBytes(p), Bytes(qs[1..]), rest);
      Assoc(row, PacketData(p), Data(qs[1..]));
      PacketReadBack(p, Bytes(qs[1..]) + rest, width - |row|);
      WrittenRow(qs[1..], row + PacketData(p), rest, width);
    }
  }

  /** While data is missing there are packets left. */
  lemma MoreBytes(qs: seq<Packet>)
    requires AllOk(qs) && |Data(qs)| > 0
    ensures qs != [] && |Bytes(qs)| > 0
  {
  }

  lemma NoData(qs: seq<Packet>)
    requires AllOk(qs) && |Data(qs)| == 0
    ensures qs == []
  {
  }

  /** The packets of the rows from `k` on. */
  ghost function RowsFrom(pss: seq<seq<Packet>>, k: nat): seq<byte>
    requires |pss| == 4 && k <= 4 && forall i | 0 <= i < 4 :: AllOk(pss[i])
    decreases 4 - k
  {
    if k == 4 then [] else Bytes(pss[k]) + RowsFrom(pss, k + 1)
  }

  ghost predicate RowsOk(width: nat, pss: seq<seq<Packet>>) {
    |pss| == 4 && (forall k | 0 <= k < 4 :: AllOk(pss[k])) && forall k | 0 <= k < 4 :: |Data(pss[k])| == width
  }

  /** Rows `k` to 3 come next. */
  ghost predicate RowsNext(left: seq<byte>, width: nat, pss: seq<seq<Packet>>, k: nat, rest: seq<byte>) {
    RowsOk(width, pss) && k <= 4 && left == RowsFrom(pss, k) + rest
  }

  lemma NoneNext(left: seq<byte>, width: nat, pss: seq<seq<Packet>>, k: nat, rest: seq<byte>)
    requires RowsNext(left, width, pss, k, rest) && k == 4
    ensures left == rest
  {
  }

  predicate Rows(width: nat, rows: seq<seq<byte>>, n: nat) {
    |rows| == n && forall k | 0 <= k < n :: |rows[k]| == width
  }

  /** The rows are the data of their packets. */
  predicate RowsRead(rows: seq<seq<byte>>, pss: seq<seq<Packet>>) {
    |rows| <= |pss| && forall k | 0 <= k < |rows| :: RowRead(rows[k], pss[k])
  }

  lemma RowsGrow(width: nat, rows: seq<seq<byte>>, row: seq<byte>, n: nat)
    requires Rows(width, rows, n) && |row| == width
    ensures Rows(width, rows + [row], n + 1)
  {
  }

  lemma RowsReadGrow(rows: seq<seq<byte>>, row: seq<byte>, pss: seq<seq<Packet>>)
    requires RowsRead(rows, pss) && |rows| < |pss| && RowRead(row, pss[|rows|])
    ensures RowsRead(rows + [row], pss)
  {
  }

  predicate RowRead(row: seq<byte>, ps: seq<Packet>) {
    row == Data(ps)
  }

  /** The bytes start with a scanline. */
  ghost predicate ScanlineOf(left: seq<byte>, width: nat, pss: seq<seq<Packet>>, rest: seq<byte>) {
    && RowsOk(width, pss)
    && width < 32768 && left == [2, 2, width / 256, width % 256] + (RowsFrom(pss, 0) + rest)
  }

  lemma HeaderBytes(left: seq<byte>, width: nat, pss: seq<seq<Packet>>, rest: seq<byte>)
    requires ScanlineOf(left, width, pss, rest)
    ensures |left| >= 4 && left[0] == 2 && left[1] == 2 && left[2] == width / 256 < 128 && left[3] == width % 256
    ensures left[1..][1..][1..][1..] == RowsFrom(pss, 0) + rest
  {
  }

  /** Reading back what was written gives the four rows back, and leaves the rest. */
  method ScanlineRoundTrip(width: nat, comps: seq<seq<byte>>, rest: seq<byte>)
    returns (verdict: Verdict, rows: seq<seq<byte>>)
    requires 8 <= width < 32768 && |comps| == 4 && forall c | 0 <= c < 4 :: |comps[c]| == width
    ensures verdict.Read? && rows == comps
  {
    var out, pss := WriteScanline(width, comps);
    var reader := new Reader(out + rest);
    RowsAre(pss);
    Assoc([2, 2, width / 256, width % 256], RowsFrom(pss, 0), rest);
    assert reader.Left() == out + rest;
    verdict, rows := reader.ReadScanline(width, pss, rest);
    assert forall k | 0 <= k < 4 :: RowRead(rows[k], pss[k]);
    assert rows == comps;
  }

  lemma RowsAre(pss: seq<seq<Packet>>)
    requires |pss| == 4 && forall i | 0 <= i < 4 :: AllOk(pss[i])
    ensures RowsFrom(pss, 0) == Bytes(pss[0]) + (Bytes(pss[1]) + (Bytes(pss[2]) + Bytes(pss[3])))
  {
    assert RowsFrom(pss, 3) == Bytes(pss[3]) + RowsFrom(pss, 4) == Bytes(pss[3]);
    assert RowsFrom(pss, 2) == Bytes(pss[2]) + RowsFrom(pss, 3);
    assert RowsFrom(pss, 1) == Bytes(pss[1]) + RowsFrom(pss, 2);
  }
}

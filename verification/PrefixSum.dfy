/**
 The parallel inclusive prefix sum: warps of 32 lanes, blocks of two warps, and a pass that adds the
 totals of the blocks before. Threads of a block run in lock step between barriers.
 */
module PrefixSum {
  import opened Words

  /** The sum of `s[lo..hi]`, in 32-bit words. */
  function Sum(s: seq<Word>, lo: int, hi: int): Word
    requires 0 <= lo && hi <= |s|
    decreases hi - lo
  {
    if hi <= lo then 0 else AddWords(Sum(s, lo, hi - 1), s[hi - 1])
  }

  /** The sum of the numbers, without wrap-around. */
  function Total(s: seq<Word>, lo: int, hi: int): nat
    requires 0 <= lo && hi <= |s|
    decreases hi - lo
  {
    if hi <= lo then 0 else Total(s, lo, hi - 1) + s[hi - 1]
  }

  lemma {:induction false} SumWraps(s: seq<Word>, lo: int, hi: int)
    requires 0 <= lo && hi <= |s|
    ensures Sum(s, lo, hi) == Total(s, lo, hi) % 0x1_0000_0000
    decreases hi - lo
  {
    if lo < hi {
      SumWraps(s, lo, hi - 1);
    }
  }

  lemma {:induction false} SumSplit(s: seq<Word>, lo: int, mid: int, hi: int)
    requires 0 <= lo <= mid <= hi <= |s|
    ensures Sum(s, lo, hi) == AddWords(Sum(s, lo, mid), Sum(s, mid, hi))
    decreases hi
  {
    if mid < hi {
      SumSplit(s, lo, mid, hi - 1);
      AddAssociates(Sum(s, lo, mid), Sum(s, mid, hi - 1), s[hi - 1]);
    }
  }

  /** The same with the later part first. */
  lemma SumJoins(s: seq<Word>, lo: int, mid: int, hi: int)
    requires 0 <= lo <= mid <= hi <= |s|
    ensures Sum(s, lo, hi) == AddWords(Sum(s, mid, hi), Sum(s, lo, mid))
  {
    SumSplit(s, lo, mid, hi);
    AddCommutes(Sum(s, lo, mid), Sum(s, mid, hi));
  }

  lemma {:induction false} SumShift(s: seq<Word>, t: seq<Word>, off: nat, lo: int, hi: int)
    requires 0 <= lo <= hi <= |t| && off + hi <= |s| && forall k | lo <= k < hi :: t[k] == s[off + k]
    ensures Sum(t, lo, hi) == Sum(s, off + lo, off + hi)
    decreases hi
  {
    if lo < hi {
      SumShift(s, t, off, lo, hi - 1);
    }
  }

  /******* Warps *******/

  /** One round: every lane adds the value `offset` lanes below, if there is one. */
  function Round(v: seq<Word>, offset: nat): (r: seq<Word>)
    ensures |r| == |v|
    ensures forall l | 0 <= l < |v| :: r[l] == if l >= offset then AddWords(v[l], v[l - offset]) else v[l]
  {
    seq(|v|, l requires 0 <= l < |v| => if l >= offset then AddWords(v[l], v[l - offset]) else v[l])
  }

  /** Every lane holds the sum of the last `w` values up to its own. */
  ghost predicate Window(orig: seq<Word>, v: seq<Word>, w: nat) {
    |v| == |orig| && forall l | 0 <= l < |v| :: WindowAt(orig, v, w, l)
  }

  ghost predicate WindowAt(orig: seq<Word>, v: seq<Word>, w: nat, l: nat)
    requires l < |v| == |orig|
  {
    v[l] == WindowSum(orig, w, l)
  }

  /** The sum of the last `w` values up to lane `l`. */
  function WindowSum(orig: seq<Word>, w: nat, l: nat): Word
    requires l < |orig|
  {
    Sum(orig, if l + 1 >= w then l + 1 - w else 0, l + 1)
  }

  /** Two windows side by side are one of twice the width. */
  lemma WindowsJoin(orig: seq<Word>, w: nat, l: nat)
    requires l < |orig| && w > 0
    ensures WindowSum(orig, 2 * w, l) ==
            if l >= w then AddWords(WindowSum(orig, w, l), WindowSum(orig, w, l - w)) else WindowSum(orig, w, l)
  {
    if l >= w {
      SumJoins(orig, if l + 1 >= 2 * w then l + 1 - 2 * w else 0, l + 1 - w, l + 1);
    }
  }

  /** A round with the width of the window doubles it. */
  lemma RoundDoubles(orig: seq<Word>, v: seq<Word>, w: nat)
    requires Window(orig, v, w) && w > 0
    ensures Window(orig, Round(v, w), 2 * w)
  {
    var r := Round(v, w);
    forall l | 0 <= l < |r|
      ensures WindowAt(orig, r, 2 * w, l)
    {
      DoublesAt(orig, v, w, l);
    }
  }

  lemma DoublesAt(orig: seq<Word>, v: seq<Word>, w: nat, l: nat)
    requires Window(orig, v, w) && w > 0 && l < |v|
    ensures WindowAt(orig, Round(v, w), 2 * w, l)
  {
    assert WindowAt(orig, v, w, l);
    WindowsJoin(orig, w, l);
    if l >= w {
      assert WindowAt(orig, v, w, l - w);
    }
  }

  /** `warp_shfl_up_i32` for all lanes of a warp: after five rounds, the inclusive prefix sums. */
  method WarpScan(orig: seq<Word>) returns (v: seq<Word>)
    requires |orig| == 32
    ensures |v| == 32 && forall l | 0 <= l < 32 :: v[l] == Sum(orig, 0, l + 1)
  {
    v := orig;
    assert Window(orig, v, 1) by {
      forall l | 0 <= l < |v|
        ensures WindowAt(orig, v, 1, l)
      {
        assert Sum(orig, l, l) == 0;
      }
    }
    RoundDoubles(orig, v, 1);
    v := Round(v, 1);
    RoundDoubles(orig, v, 2);
    v := Round(v, 2);
    RoundDoubles(orig, v, 4);
    v := Round(v, 4);
    RoundDoubles(orig, v, 8);
    v := Round(v, 8);
    RoundDoubles(orig, v, 16);
    v := Round(v, 16);
    forall l | 0 <= l < 32
      ensures v[l] == Sum(orig, 0, l + 1)
    {
      assert WindowAt(orig, v, 32, l);
    }
  }

  /******* Blocks *******/

  /** The lock-step phases of one block, for the 64 values `v`. */
  method BlockScan(v: seq<Word>) returns (r: seq<Word>)
    requires |v| == 64
    ensures |r| == 64 && forall j | 0 <= j < 64 :: r[j] == Sum(v, 0, j + 1)
  {
    var low := WarpScan(v[..32]);
    var high := WarpScan(v[32..]);
    r := JoinWarps(low, high);
    forall j | 0 <= j < 64
      ensures r[j] == Sum(v, 0, j + 1)
    {
      BlockSumAt(v, low, high, j);
    }
  }

  /** The value of thread `j`, given the scans of the two warps. */
  function JoinedAt(low: seq<Word>, high: seq<Word>, j: nat): Word
    requires |low| == |high| == 32 && j < 64
  {
    if j < 32 then low[j] else AddWords(high[j - 32], low[31])
  }

  /** The phases behind the warp scans: totals to shared memory, their scan, and their use. */
  method JoinWarps(low: seq<Word>, high: seq<Word>) returns (r: seq<Word>)
    requires |low| == |high| == 32
    ensures |r| == 64 && forall j | 0 <= j < 64 :: r[j] == JoinedAt(low, high, j)
  {
    var padShared := new Word[65](_ => 0);
    padShared[0], padShared[1] := low[31], high[31];
    for k := 1 to 2
      invariant padShared[0] == low[31]
    {
      padShared[k] := AddWords(padShared[k], padShared[k - 1]);
    }
    r := [];
    for j := 0 to 64
      invariant |r| == j && padShared[0] == low[31]
      invariant forall i | 0 <= i < j :: r[i] == JoinedAt(low, high, i)
    {
      var warpId, laneId := j / 32, j % 32;
      var val := if warpId == 0 then low[laneId] else high[laneId];
      var warpSum: Word := 0;
      if warpId > 0 {
        warpSum := padShared[warpId - 1];
      }
      r := r + [AddWords(val, warpSum)];
    }
  }

  lemma BlockSumAt(v: seq<Word>, low: seq<Word>, high: seq<Word>, j: nat)
    requires |v| == 64 && |low| == |high| == 32 && j < 64
    requires forall l | 0 <= l < 32 :: low[l] == Sum(v[..32], 0, l + 1)
    requires forall l | 0 <= l < 32 :: high[l] == Sum(v[32..], 0, l + 1)
    ensures Sum(v, 0, j + 1) == JoinedAt(low, high, j)
  {
    if j < 32 {
      SumShift(v, v[..32], 0, 0, j + 1);
    } else {
      SumShift(v, v[..32], 0, 0, 32);
      SumShift(v, v[32..], 32, 0, j + 1 - 32);
      SumJoins(v, 0, 32, j + 1);
    }
  }

  /******* The kernels *******/

  /** Where the block of index `j` starts, for a range from `beg`. */
  function BlockStart(beg: nat, j: nat): (r: nat)
    requires beg <= j
    ensures beg <= r <= j < r + 64
  {
    beg + 64 * ((j - beg) / 64)
  }

  /** The value at `j` after `scan_add_inclusive` on `n` blocks from `beg`. */
  function ScannedAt(s: seq<Word>, beg: nat, n: nat, single: bool, j: nat): Word
    requires j < |s| && beg + 64 * n <= |s|
  {
    var end := beg + 64 * n;
    if beg <= j < end then Sum(s, BlockStart(beg, j), j + 1)
    else if !single && end <= j < end + n then Sum(s, beg + 64 * (j - end), beg + 64 * (j - end) + 64)
    else s[j]
  }

  function Scanned(s: seq<Word>, beg: nat, n: nat, single: bool): (r: seq<Word>)
    requires beg + 64 * n <= |s|
    ensures |r| == |s| && forall j | 0 <= j < |s| :: r[j] == ScannedAt(s, beg, n, single, j)
  {
    seq(|s|, j requires 0 <= j < |s| => ScannedAt(s, beg, n, single, j))
  }

  /** One block of the kernel, from `lo` on; its last thread writes the total to `slot`. */
  method ScanBlock(a: array<Word>, lo: nat, single: bool, slot: nat)
    requires lo + 64 <= a.Length && (single || lo + 64 <= slot < a.Length)
    modifies a
    ensures forall j | lo <= j < lo + 64 :: a[j] == Sum(old(a[..]), lo, j + 1)
    ensures !single ==> a[slot] == Sum(old(a[..]), lo, lo + 64)
    ensures forall j | 0 <= j < a.Length && !(lo <= j < lo + 64) && (single || j != slot) :: a[j] == old(a[j])
  {
    ghost var was := a[..];
    var v := a[lo..lo + 64];
    var r := BlockScan(v);
    forall j | 0 <= j < 64
      ensures r[j] == Sum(was, lo, lo + j + 1)
    {
      SumShift(was, v, lo, 0, j + 1);
    }
    var i := lo;
    while i < lo + 64
      invariant lo <= i <= lo + 64
      invariant forall j | lo <= j < i :: a[j] == Sum(was, lo, j + 1)
      invariant forall j | 0 <= j < a.Length && !(lo <= j < i) :: a[j] == was[j]
    {
      assert r[i - lo] == Sum(was, lo, i + 1);
      a[i] := r[i - lo];
      i := i + 1;
    }
    if !single {
      a[slot] := a[lo + 63];
    }
  }

  /** The first `b` blocks have been scanned. */
  ghost predicate BlocksDone(was: seq<Word>, now: seq<Word>, beg: nat, n: nat, single: bool, b: nat)
    requires b <= n && beg + 64 * n <= |was| && (single || beg + 64 * n + n <= |was|)
  {
    |now| == |was| && forall j | 0 <= j < |was| :: now[j] == DoneAt(was, beg, n, single, b, j)
  }

  ghost function DoneAt(was: seq<Word>, beg: nat, n: nat, single: bool, b: nat, j: nat): Word
    requires j < |was| && b <= n && beg + 64 * n <= |was|
  {
    var end := beg + 64 * n;
    if beg <= j < beg + 64 * b || end <= j < end + b then ScannedAt(was, beg, n, single, j) else was[j]
  }

  /** `scan_add_inclusive` from `inBeg` to `inEnd`. */
  method ScanAddInclusive(a: array<Word>, inBeg: nat, inEnd: nat, single: bool)
    requires inBeg % 64 == 0 && inBeg <= inEnd <= a.Length && inEnd % 64 == 0
    requires single || inEnd + (inEnd - inBeg) / 64 <= a.Length
    modifies a
    ensures inBeg + 64 * ((inEnd - inBeg) / 64) == inEnd
    ensures a[..] == Scanned(old(a[..]), inBeg, (inEnd - inBeg) / 64, single)
  {
    ghost var was := a[..];
    var n := (inEnd - inBeg) / 64;
    var b := 0;
    while b < n
      invariant 0 <= b <= n && BlocksDone(was, a[..], inBeg, n, single, b)
    {
      ScanNext(a, inBeg, n, single, b, was);
      b := b + 1;
    }
  }

  /** The block with number `b`. */
  method ScanNext(a: array<Word>, beg: nat, n: nat, single: bool, b: nat, ghost was: seq<Word>)
    requires b < n && beg + 64 * n <= |was| == a.Length && (single || beg + 64 * n + n <= |was|)
    requires BlocksDone(was, a[..], beg, n, single, b)
    modifies a
    ensures BlocksDone(was, a[..], beg, n, single, b + 1)
  {
    ghost var mid := a[..];
    ScanBlock(a, beg + 64 * b, single, beg + 64 * n + b);
    OneMoreBlock(was, mid, a[..], beg, n, single, b);
  }

  lemma OneMoreBlock(was: seq<Word>, mid: seq<Word>, now: seq<Word>, beg: nat, n: nat, single: bool, b: nat)
    requires b < n && beg + 64 * n <= |was| && (single || beg + 64 * n + n <= |was|)
    requires BlocksDone(was, mid, beg, n, single, b) && |now| == |was|
    requires forall j | beg + 64 * b <= j < beg + 64 * b + 64 :: now[j] == Sum(mid, beg + 64 * b, j + 1)
    requires !single ==> now[beg + 64 * n + b] == Sum(mid, beg + 64 * b, beg + 64 * b + 64)
    requires forall j | 0 <= j < |was| && !(beg + 64 * b <= j < beg + 64 * b + 64)
             && (single || j != beg + 64 * n + b) :: now[j] == mid[j]
    ensures BlocksDone(was, now, beg, n, single, b + 1)
  {
    forall j | 0 <= j < |was|
      ensures now[j] == DoneAt(was, beg, n, single, b + 1, j)
    {
      OneMoreAt(was, mid, now, beg, n, single, b, j);
    }
  }

  lemma OneMoreAt(was: seq<Word>, mid: seq<Word>, now: seq<Word>, beg: nat, n: nat, single: bool, b: nat, j: nat)
    requires b < n && beg + 64 * n <= |was| && (single || beg + 64 * n + n <= |was|) && j < |was|
    requires BlocksDone(was, mid, beg, n, single, b) && |now| == |was|
    requires beg + 64 * b <= j < beg + 64 * b + 64 ==> now[j] == Sum(mid, beg + 64 * b, j + 1)
    requires !single && j == beg + 64 * n + b ==> now[j] == Sum(mid, beg + 64 * b, beg + 64 * b + 64)
    requires !(beg + 64 * b <= j < beg + 64 * b + 64) && (single || j != beg + 64 * n + b) ==> now[j] == mid[j]
    ensures now[j] == DoneAt(was, beg, n, single, b + 1, j)
  {
    var lo := beg + 64 * b;
    assert mid[j] == DoneAt(was, beg, n, single, b, j);
    if lo <= j < lo + 64 {
      SumSame(was, mid, lo, j + 1);
      assert BlockStart(beg, j) == lo;
    } else if !single && j == beg + 64 * n + b {
      SumSame(was, mid, lo, lo + 64);
    }
  }

  lemma {:induction false} SumSame(s: seq<Word>, t: seq<Word>, lo: nat, hi: nat)
    requires lo <= hi <= |s| && hi <= |t| && forall k | lo <= k < hi :: s[k] == t[k]
    ensures Sum(s, lo, hi) == Sum(t, lo, hi)
    decreases hi
  {
    if lo < hi {
      SumSame(s, t, lo, hi - 1);
    }
  }

  /** The value at `j` after `uniform_add` on `n` blocks from `beg`. */
  function AddedAt(s: seq<Word>, beg: nat, n: nat, j: nat): Word
    requires j < |s| && beg + 64 * n + n <= |s|
  {
    var end := beg + 64 * n;
    if beg + 64 <= j < end then AddWords(s[j], s[end + (j - beg) / 64 - 1]) else s[j]
  }

  function Added(s: seq<Word>, beg: nat, n: nat): (r: seq<Word>)
    requires beg + 64 * n + n <= |s|
    ensures |r| == |s| && forall j | 0 <= j < |s| :: r[j] == AddedAt(s, beg, n, j)
  {
    seq(|s|, j requires 0 <= j < |s| => AddedAt(s, beg, n, j))
  }

  /** `uniform_add` from `inBeg` to `inEnd`. */
  method UniformAdd(a: array<Word>, inBeg: nat, inEnd: nat, ghost n: nat)
    requires inEnd == inBeg + 64 * n && inEnd + n <= a.Length
    modifies a
    ensures a[..] == Added(old(a[..]), inBeg, n)
  {
    ghost var was := a[..];
    var i := inBeg + 64;
    while i < inEnd
      invariant i >= inBeg + 64
      invariant forall j | 0 <= j < a.Length :: a[j] == if j < i then AddedAt(was, inBeg, n, j) else was[j]
    {
      var blockId := (i - inBeg) / 64;
      assert 1 <= blockId <= n;
      a[i] := AddWords(a[i], a[inEnd + blockId - 1]);
      i := i + 1;
    }
  }

  /******* Levels *******/

  /** Level `k` has `ele[k]` values in the region from `pos[k]` to `pos[k + 1]`, which is `ele[k + 1]` whole
      blocks; its block totals are the values of level `k + 1`. */
  predicate Level(ele: seq<nat>, pos: seq<nat>, k: nat)
    requires k + 1 < |ele| == |pos|
  {
    ele[k] > 1 && ele[k + 1] == (ele[k] + 63) / 64 && pos[k + 1] == pos[k] + 64 * ele[k + 1]
  }

  predicate Levels(ele: seq<nat>, pos: seq<nat>) {
    && |ele| == |pos| > 0 && pos[0] == 0 && ele[|ele| - 1] <= 1
    && forall k: nat | k < |ele| - 1 :: Level(ele, pos, k)
  }

  function Last(pos: seq<nat>): nat
    requires |pos| > 0
  {
    pos[|pos| - 1]
  }

  lemma {:induction false} PosBounds(ele: seq<nat>, pos: seq<nat>, k: nat)
    requires Levels(ele, pos) && k < |pos|
    ensures pos[k] <= Last(pos)
    ensures k + 1 < |pos| ==> pos[k + 1] == pos[k] + 64 * ele[k + 1] <= Last(pos) && ele[k] <= 64 * ele[k + 1]
    decreases |pos| - k
  {
    if k + 1 < |pos| {
      assert Level(ele, pos, k);
      PosBounds(ele, pos, k + 1);
    }
  }

  lemma {:induction false} PosAligned(ele: seq<nat>, pos: seq<nat>, k: nat)
    requires Levels(ele, pos) && k < |pos|
    ensures pos[k] % 64 == 0
  {
    if k > 0 {
      PosAligned(ele, pos, k - 1);
      var j := k - 1;
      assert Level(ele, pos, j);
    }
  }

  /** The totals of all levels but the last fit into the region of the next level. */
  lemma TotalsFit(ele: seq<nat>, pos: seq<nat>, k: nat)
    requires Levels(ele, pos) && k + 2 < |pos|
    ensures pos[k + 1] + ele[k + 1] <= pos[k + 2] <= Last(pos)
  {
    assert Level(ele, pos, k);
    assert Level(ele, pos, k + 1);
    PosBounds(ele, pos, k + 1);
  }

  lemma LevelFacts(ele: seq<nat>, pos: seq<nat>, k: nat)
    requires Levels(ele, pos) && k + 2 < |pos|
    ensures pos[k + 1] == pos[k] + 64 * ele[k + 1] && pos[k + 1] + ele[k + 1] <= pos[k + 2] <= Last(pos)
  {
    PosBounds(ele, pos, k);
    TotalsFit(ele, pos, k);
  }

  /******* The two sweeps *******/

  /** The buffer after the scans of the first `k` levels. */
  function Up(s: seq<Word>, ele: seq<nat>, pos: seq<nat>, k: nat): (r: seq<Word>)
    requires Levels(ele, pos) && |s| == Last(pos) && k < |pos|
    ensures |r| == |s|
  {
    if k == 0 then s
    else
      PosBounds(ele, pos, k - 1);
      Scanned(Up(s, ele, pos, k - 1), pos[k - 1], ele[k], k == |pos| - 1)
  }

  /** From there, the buffer after the additions on all levels from `k` on. */
  function Down(t: seq<Word>, ele: seq<nat>, pos: seq<nat>, k: nat): (r: seq<Word>)
    requires Levels(ele, pos) && |t| == Last(pos)
    ensures |r| == |t|
    decreases |pos| - k
  {
    if k + 2 >= |pos| then t
    else
      LevelFacts(ele, pos, k);
      Added(Down(t, ele, pos, k + 1), pos[k], ele[k + 1])
  }

  /** The later scans and additions leave the earlier regions alone. */
  lemma {:induction false} UpKeeps(s: seq<Word>, ele: seq<nat>, pos: seq<nat>, k: nat, i: nat, j: nat)
    requires Levels(ele, pos) && |s| == Last(pos) && k <= i < |pos| && j < pos[k]
    ensures j < |s| && Up(s, ele, pos, i)[j] == Up(s, ele, pos, k)[j]
    decreases i
  {
    PosBounds(ele, pos, k);
    if k < i {
      PosGrows(ele, pos, k, i - 1);
      PosBounds(ele, pos, i - 1);
      UpKeeps(s, ele, pos, k, i - 1, j);
    }
  }

  lemma {:induction false} PosGrows(ele: seq<nat>, pos: seq<nat>, k: nat, i: nat)
    requires Levels(ele, pos) && k <= i < |pos|
    ensures pos[k] <= pos[i]
    decreases i
  {
    if k < i {
      PosGrows(ele, pos, k, i - 1);
      PosBounds(ele, pos, i - 1);
    }
  }

  lemma {:induction false} DownKeeps(t: seq<Word>, ele: seq<nat>, pos: seq<nat>, k: nat, j: nat)
    requires Levels(ele, pos) && |t| == Last(pos) && k < |pos| && j < pos[k]
    ensures j < |t| && Down(t, ele, pos, k)[j] == t[j]
    decreases |pos| - k
  {
    PosBounds(ele, pos, k);
    if k + 2 < |pos| {
      TotalsFit(ele, pos, k);
      DownKeeps(t, ele, pos, k + 1, j);
    }
  }

  /** The block totals sum up to the sum of the blocks. */
  lemma {:induction false} TotalsSum(s: seq<Word>, t: seq<Word>, beg: nat, end: nat, b: nat)
    requires beg + 64 * b <= |s| && end + b <= |t|
    requires AreTotals(s, t, beg, end, b)
    ensures Sum(t, end, end + b) == Sum(s, beg, beg + 64 * b)
    decreases b
  {
    if b > 0 {
      var c := b - 1;
      TotalsSum(s, t, beg, end, c);
      SumSplit(s, beg, beg + 64 * c, beg + 64 * b);
      assert t[end + c] == TotalOf(s, beg, c);
    }
  }

  /** From `end` on, `t` holds the totals of the first `b` blocks of `s`. */
  predicate AreTotals(s: seq<Word>, t: seq<Word>, beg: nat, end: nat, b: nat)
    requires end + b <= |t|
  {
    forall i | end <= i < end + b :: t[i] == TotalOf(s, beg, i - end)
  }

  function TotalOf(s: seq<Word>, beg: nat, b: int): Word {
    if 0 <= b && beg + 64 * b + 64 <= |s| then Sum(s, beg + 64 * b, beg + 64 * b + 64) else 0
  }

  /** Index `j` of level `k`'s region. */
  predicate InLevel(pos: seq<nat>, k: nat, j: nat) {
    k + 1 < |pos| && pos[k] <= j < pos[k + 1] <= Last(pos)
  }

  /** After both sweeps, level `k` holds the prefix sums of what it held before its scan. */
  lemma {:induction false} SummedAt(s: seq<Word>, ele: seq<nat>, pos: seq<nat>, k: nat, j: nat)
    requires Levels(ele, pos) && |s| == Last(pos) && InLevel(pos, k, j)
    ensures Down(Up(s, ele, pos, |pos| - 1), ele, pos, k)[j] == Sum(Up(s, ele, pos, k), pos[k], j + 1)
    decreases |pos| - k
  {
    if k + 2 == |pos| {
      LastSummed(s, ele, pos, k, j);
    } else {
      LevelFacts(ele, pos, k);
      var b := (j - pos[k]) / 64;
      if b > 0 {
        SummedAt(s, ele, pos, k + 1, pos[k + 1] + b - 1);
        TotalBelow(s, ele, pos, k, b, Down(Up(s, ele, pos, |pos| - 1), ele, pos, k + 1));
      }
      InnerSummed(s, ele, pos, k, j, b);
    }
  }

  /** The last level is a single block, which its own scan has summed. */
  lemma LastSummed(s: seq<Word>, ele: seq<nat>, pos: seq<nat>, k: nat, j: nat)
    requires Levels(ele, pos) && |s| == Last(pos) && k + 2 == |pos| && InLevel(pos, k, j)
    ensures Down(Up(s, ele, pos, |pos| - 1), ele, pos, k)[j] == Sum(Up(s, ele, pos, k), pos[k], j + 1)
  {
    PosBounds(ele, pos, k);
    UpStep(s, ele, pos, k);
    assert Level(ele, pos, k);
    assert BlockStart(pos[k], j) == pos[k];
  }

  lemma InnerSummed(s: seq<Word>, ele: seq<nat>, pos: seq<nat>, k: nat, j: nat, b: nat)
    requires Levels(ele, pos) && |s| == Last(pos) && k + 2 < |pos| && InLevel(pos, k, j) && b == (j - pos[k]) / 64
    requires b > 0 ==> TotalBefore(Up(s, ele, pos, k), Down(Up(s, ele, pos, |pos| - 1), ele, pos, k + 1), pos[k],
                                   pos[k + 1], b)
    ensures Down(Up(s, ele, pos, |pos| - 1), ele, pos, k)[j] == Sum(Up(s, ele, pos, k), pos[k], j + 1)
  {
    DownAt(Up(s, ele, pos, |pos| - 1), ele, pos, k, j);
    ScannedOnly(s, ele, pos, k, j);
    AddStep(Up(s, ele, pos, k), Down(Up(s, ele, pos, |pos| - 1), ele, pos, k + 1), pos[k], ele[k + 1], j, b);
  }

  /** The slot before that of block `b` holds the sum of all blocks before `b`. */
  predicate TotalBefore(u: seq<Word>, e: seq<Word>, beg: nat, end: nat, b: nat) {
    b > 0 && end + b <= |e| && beg + 64 * b <= |u| && e[end + b - 1] == Sum(u, beg, beg + 64 * b)
  }

  lemma AddStep(u: seq<Word>, e: seq<Word>, beg: nat, n: nat, j: nat, b: nat)
    requires |u| == |e| && beg + 64 * n + n <= |e| && beg <= j < beg + 64 * n && b == (j - beg) / 64
    requires e[j] == Sum(u, BlockStart(beg, j), j + 1) && (b > 0 ==> TotalBefore(u, e, beg, beg + 64 * n, b))
    ensures AddedAt(e, beg, n, j) == Sum(u, beg, j + 1)
  {
    if b > 0 {
      SumJoins(u, beg, beg + 64 * b, j + 1);
    }
  }

  /** Before the addition on level `k`, its values are those of its scan. */
  lemma ScannedOnly(s: seq<Word>, ele: seq<nat>, pos: seq<nat>, k: nat, j: nat)
    requires Levels(ele, pos) && |s| == Last(pos) && k + 2 < |pos| && pos[k] <= j < pos[k + 1] && j < |s|
    ensures Down(Up(s, ele, pos, |pos| - 1), ele, pos, k + 1)[j]
            == Sum(Up(s, ele, pos, k), BlockStart(pos[k], j), j + 1)
  {
    DownKeeps(Up(s, ele, pos, |pos| - 1), ele, pos, k + 1, j);
    UpKeeps(s, ele, pos, k + 1, |pos| - 1, j);
    PosBounds(ele, pos, k);
    assert Up(s, ele, pos, k + 1)[j] == ScannedAt(Up(s, ele, pos, k), pos[k], ele[k + 1], false, j);
  }

  lemma TotalBelow(s: seq<Word>, ele: seq<nat>, pos: seq<nat>, k: nat, b: nat, e: seq<Word>)
    requires Levels(ele, pos) && |s| == |e| == Last(pos) && k + 2 < |pos| && 0 < b < ele[k + 1]
    requires pos[k + 1] + b <= |s| && pos[k] + 64 * b <= |s|
    requires e[pos[k + 1] + b - 1] == Sum(Up(s, ele, pos, k + 1), pos[k + 1], pos[k + 1] + b)
    ensures TotalBefore(Up(s, ele, pos, k), e, pos[k], pos[k + 1], b)
  {
    TotalsUp(s, ele, pos, k, b);
  }

  /** The first totals sum up to what their blocks held before. */
  lemma TotalsUp(s: seq<Word>, ele: seq<nat>, pos: seq<nat>, k: nat, b: nat)
    requires Levels(ele, pos) && |s| == Last(pos) && k + 2 < |pos| && b < ele[k + 1]
    requires pos[k + 1] + b <= |s| && pos[k] + 64 * b <= |s|
    ensures Sum(Up(s, ele, pos, k + 1), pos[k + 1], pos[k + 1] + b) == Sum(Up(s, ele, pos, k), pos[k], pos[k] + 64 * b)
  {
    TotalsScanned(s, ele, pos, k, b);
    TotalsSum(Up(s, ele, pos, k), Up(s, ele, pos, k + 1), pos[k], pos[k + 1], b);
  }

  lemma TotalsScanned(s: seq<Word>, ele: seq<nat>, pos: seq<nat>, k: nat, b: nat)
    requires Levels(ele, pos) && |s| == Last(pos) && k + 2 < |pos| && b < ele[k + 1] && pos[k + 1] + b <= |s|
    ensures AreTotals(Up(s, ele, pos, k), Up(s, ele, pos, k + 1), pos[k], pos[k + 1], b)
  {
    var u, v := Up(s, ele, pos, k), Up(s, ele, pos, k + 1);
    LevelFacts(ele, pos, k);
    forall i | pos[k + 1] <= i < pos[k + 1] + b
      ensures v[i] == TotalOf(u, pos[k], i - pos[k + 1])
    {
      assert v[i] == ScannedAt(u, pos[k], ele[k + 1], false, i);
    }
  }

  lemma DownStep(t: seq<Word>, ele: seq<nat>, pos: seq<nat>, k: nat)
    requires Levels(ele, pos) && |t| == Last(pos) && k + 2 < |pos|
    ensures pos[k + 1] == pos[k] + 64 * ele[k + 1] && pos[k + 1] + ele[k + 1] <= Last(pos)
    ensures Down(t, ele, pos, k) == Added(Down(t, ele, pos, k + 1), pos[k], ele[k + 1])
  {
    LevelFacts(ele, pos, k);
  }

  lemma DownAt(t: seq<Word>, ele: seq<nat>, pos: seq<nat>, k: nat, j: nat)
    requires Levels(ele, pos) && |t| == Last(pos) && k + 2 < |pos| && j < |t|
    ensures pos[k + 1] == pos[k] + 64 * ele[k + 1] && pos[k + 1] + ele[k + 1] <= Last(pos)
    ensures Down(t, ele, pos, k)[j] == AddedAt(Down(t, ele, pos, k + 1), pos[k], ele[k + 1], j)
  {
    DownStep(t, ele, pos, k);
  }

  lemma UpStep(s: seq<Word>, ele: seq<nat>, pos: seq<nat>, k: nat)
    requires Levels(ele, pos) && |s| == Last(pos) && k + 1 < |pos|
    ensures pos[k] % 64 == 0 && pos[k + 1] % 64 == 0 && pos[k] <= pos[k + 1] <= Last(pos)
    ensures (pos[k + 1] - pos[k]) / 64 == ele[k + 1] && (k + 2 < |pos| ==> pos[k + 1] + ele[k + 1] <= Last(pos))
    ensures Up(s, ele, pos, k + 1) == Scanned(Up(s, ele, pos, k), pos[k], ele[k + 1], k + 2 == |pos|)
  {
    PosBounds(ele, pos, k);
    PosAligned(ele, pos, k);
    PosAligned(ele, pos, k + 1);
    if k + 2 < |pos| {
      LevelFacts(ele, pos, k);
    }
  }

  /** After both sweeps the first level holds the prefix sums of the values put there. */
  lemma FirstSummed(s: seq<Word>, ele: seq<nat>, pos: seq<nat>, first: nat, d: seq<Word>, j: nat)
    requires Levels(ele, pos) && |s| == Last(pos) && |pos| > 1 && first == 0
             && d == Down(Up(s, ele, pos, |pos| - 1), ele, pos, first)
    requires j < ele[0] && j < |s|
    ensures d[j] == Sum(s, 0, j + 1)
  {
    PosBounds(ele, pos, first);
    SummedAt(s, ele, pos, first, j);
  }

  /******* The executor *******/

  class PrefixSumExecutor {
    const sortingLength: nat
    var eleNums: seq<nat>
    var eleNumsPos: seq<nat>
    var largeArr: array<Word>

    ghost predicate Valid()
      reads this
    {
      Levels(eleNums, eleNumsPos) && eleNums[0] == sortingLength && largeArr.Length == Last(eleNumsPos)
    }

    /** `_init`: the levels, and one buffer for all of them. */
    constructor (length: nat)
      ensures Valid() && sortingLength == length && fresh(largeArr)
    {
      sortingLength := length;
      var eleNum: nat, startPos: nat := length, 0;
      var ele: seq<nat>, pos: seq<nat> := [length], [0];
      while eleNum > 1
        invariant |ele| == |pos| > 0 && pos[0] == 0 && ele[0] == length && ele[|ele| - 1] == eleNum
                  && pos[|pos| - 1] == startPos
        invariant forall k: nat | k < |ele| - 1 :: Level(ele, pos, k)
        decreases eleNum
      {
        ghost var ele0, pos0 := ele, pos;
        eleNum := (eleNum + 63) / 64;
        ele := ele + [eleNum];
        startPos := startPos + 64 * eleNum;
        pos := pos + [startPos];
        forall k: nat | k < |ele| - 1
          ensures Level(ele, pos, k)
        {
          if k < |ele0| - 1 {
            assert Level(ele0, pos0, k);
          }
        }
      }
      eleNums, eleNumsPos := ele, pos;
      largeArr := new Word[startPos](_ => 0);
    }

    method UpSweep(ghost s: seq<Word>)
      requires Valid() && largeArr[..] == s
      modifies largeArr
      ensures |s| == Last(eleNumsPos) && largeArr[..] == Up(s, eleNums, eleNumsPos, |eleNumsPos| - 1)
    {
      var i := 0;
      while i < |eleNums| - 1
        invariant 0 <= i < |eleNums| && largeArr[..] == Up(s, eleNums, eleNumsPos, i)
      {
        ScanLevel(s, i);
        i := i + 1;
      }
    }

    method ScanLevel(ghost s: seq<Word>, i: nat)
      requires Valid() && |s| == Last(eleNumsPos) && i + 1 < |eleNumsPos|
               && largeArr[..] == Up(s, eleNums, eleNumsPos, i)
      modifies largeArr
      ensures largeArr[..] == Up(s, eleNums, eleNumsPos, i + 1)
    {
      UpStep(s, eleNums, eleNumsPos, i);
      ScanAddInclusive(largeArr, eleNumsPos[i], eleNumsPos[i + 1], i == |eleNums| - 2);
    }

    method DownSweep(ghost t: seq<Word>)
      requires Valid() && largeArr[..] == t
      modifies largeArr
      ensures |t| == Last(eleNumsPos) && largeArr[..] == Down(t, eleNums, eleNumsPos, 0)
    {
      var i: nat := if |eleNums| > 2 then |eleNums| - 2 else 0;
      while i > 0
        invariant i == 0 || i + 2 <= |eleNums|
        invariant largeArr[..] == Down(t, eleNums, eleNumsPos, i)
      {
        i := i - 1;
        AddLevel(t, i);
      }
    }

    method AddLevel(ghost t: seq<Word>, i: nat)
      requires Valid() && |t| == Last(eleNumsPos) && i + 2 < |eleNumsPos|
               && largeArr[..] == Down(t, eleNums, eleNumsPos, i + 1)
      modifies largeArr
      ensures largeArr[..] == Down(t, eleNums, eleNumsPos, i)
    {
      DownStep(t, eleNums, eleNumsPos, i);
      UniformAdd(largeArr, eleNumsPos[i], eleNumsPos[i + 1], eleNums[i + 1]);
    }

    /** `run`: the array becomes its inclusive prefix sums, whatever the buffer held before. */
    method Run(input: array<Word>)
      requires Valid() && input != largeArr && sortingLength <= input.Length && sortingLength <= largeArr.Length
      modifies input, largeArr
      ensures forall j | 0 <= j < sortingLength :: input[j] == Sum(old(input[..]), 0, j + 1)
      ensures forall j | 0 <= j < sortingLength :: input[j] == Total(old(input[..]), 0, j + 1) % 0x1_0000_0000
      ensures forall j | sortingLength <= j < input.Length :: input[j] == old(input[j])
    {
      ghost var given := input[..];
      Blit(largeArr, input, sortingLength);
      ghost var s := largeArr[..];
      UpSweep(s);
      DownSweep(largeArr[..]);
      if sortingLength > 0 {
        BufferFits(eleNums, eleNumsPos);
      }
      forall j | 0 <= j < sortingLength
        ensures largeArr[j] == Sum(given, 0, j + 1) == Total(given, 0, j + 1) % 0x1_0000_0000
      {
        FirstSummed(s, eleNums, eleNumsPos, 0, largeArr[..], j);
        SumSame(s, given, 0, j + 1);
        SumWraps(given, 0, j + 1);
      }
      Blit(input, largeArr, sortingLength);
    }
  }

  /** `blit_from_field_to_field` without offsets. */
  method Blit(dst: array<Word>, src: array<Word>, size: nat)
    requires size <= dst.Length && size <= src.Length && dst != src
    modifies dst
    ensures forall j | 0 <= j < dst.Length :: dst[j] == if j < size then src[j] else old(dst[j])
  {
    for i := 0 to size
      invariant forall j | 0 <= j < dst.Length :: dst[j] == if j < i then src[j] else old(dst[j])
    {
      dst[i] := src[i];
    }
  }

  /** The buffer has room for the values, except for a single one: then there is no level and no buffer. */
  lemma BufferFits(ele: seq<nat>, pos: seq<nat>)
    requires Levels(ele, pos)
    ensures ele[0] <= Last(pos) <==> ele[0] != 1
  {
    assert |ele| > 1 ==> Level(ele, pos, 0);
    PosBounds(ele, pos, 0);
  }
}

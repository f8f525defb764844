/**
 The filters that PNG applies to the rows of an image before compression (section 6 of RFC 2083), the
 writer's choice among them, and the reader that undoes them. Rows hold 8-bit samples, `n` per pixel.
 */
module Png {
  import opened Options
  import opened Bits
  import Zlib

  function Abs(v: int): (r: nat)
    ensures r == v || r == -v
  {
    if v < 0 then -v else v
  }

  /******* The rule of the format *******/

  /** The first of `a`, `b` and `c`, in this order, that none of the others is closer to `a + b - c` than. */
  ghost predicate FirstNearest(a: int, b: int, c: int, r: int) {
    var p := a + b - c;
    && (r == a || r == b || r == c)
    && Abs(p - r) <= Abs(p - a) && Abs(p - r) <= Abs(p - b) && Abs(p - r) <= Abs(p - c)
    && (r != a ==> Abs(p - r) < Abs(p - a)) && (r != a && r != b ==> Abs(p - r) < Abs(p - b))
  }

  /** What a filter predicts from the sample to the left, the one above and the one above that to the left. */
  ghost predicate Predicts(filter: nat, left: int, up: int, upperLeft: int, pred: int) {
    match filter
    case 0 => pred == 0
    case 1 => pred == left
    case 2 => pred == up
    case 3 => 2 * pred <= left + up < 2 * pred + 2
    case 4 => FirstNearest(left, up, upperLeft, pred)
    case _ => false
  }

  /** Samples outside the image are zero. */
  ghost function SampleAt(row: seq<byte>, i: int): int {
    if 0 <= i < |row| then row[i] else 0
  }

  /** In a row below `above`, byte `x` stands for sample `i`: their difference, modulo 256, is the prediction
      from the same row and the row above, `n` samples to the left. */
  ghost predicate CodedAt(filter: nat, n: nat, above: seq<byte>, x: byte, row: seq<byte>, i: nat)
    requires i < |row|
  {
    Predicts(filter, SampleAt(row, i - n), SampleAt(above, i), SampleAt(above, i - n), (row[i] - x) % 256)
  }

  /** A filter number, and bytes that stand for the samples of a row. */
  ghost predicate RowCoded(n: nat, above: seq<byte>, line: seq<byte>, row: seq<byte>) {
    |line| == 1 + |row| && forall i | 0 <= i < |row| :: RowCodedAt(n, above, line, row, i)
  }

  ghost predicate RowCodedAt(n: nat, above: seq<byte>, line: seq<byte>, row: seq<byte>, i: nat)
    requires i < |row| && |line| == 1 + |row|
  {
    CodedAt(line[0], n, above, line[1 + i], row, i)
  }

  /** The bytes are that for each row of an image, one after the other. */
  ghost predicate ImageCoded(raw: seq<byte>, rows: seq<seq<byte>>, n: nat, w: nat) {
    forall j | 0 <= j < |rows| :: ImageCodedAt(raw, rows, n, w, j)
  }

  ghost predicate ImageCodedAt(raw: seq<byte>, rows: seq<seq<byte>>, n: nat, w: nat, j: nat)
    requires j < |rows|
  {
    var at := StreamLength(w, j);
    at + 1 + w <= |raw| && RowCoded(n, Above(rows, j), raw[at..at + 1 + w], rows[j])
  }

  /******* The predictions of the code *******/

  /** Whichever of left, up and upper left is closest to `a + b - c`, in this order. */
  function Paeth(a: byte, b: byte, c: byte): (r: byte)
    ensures FirstNearest(a, b, c, r)
  {
    var p := a + b - c;
    var pa, pb, pc := Abs(p - a), Abs(p - b), Abs(p - c);
    if pa <= pb && pa <= pc then a else if pb <= pc then b else c
  }

  function Average(a: byte, b: byte): byte {
    var sum: int := a + b;
    sum / 2
  }

  function Plus(a: byte, b: byte): byte {
    var sum: int := a + b;
    sum % 256
  }

  function Minus(a: byte, b: byte): (r: byte)
    ensures Plus(r, b) == a
  {
    if b <= a then a - b else a - b + 256
  }

  /** Filters 5 and 6 are the average and Paeth filters of a row without a row above. */
  predicate UsesPrior(t: nat) {
    2 <= t <= 4
  }

  function FirstRow(filter: nat): (t: nat)
    ensures !UsesPrior(t) && (filter < 5 ==> t < 7)
  {
    if filter == 1 then 1 else if filter == 3 then 5 else if filter == 4 then 6 else 0
  }

  function FilterType(first: bool, filter: nat): (t: nat)
    ensures first ==> !UsesPrior(t)
  {
    if first then FirstRow(filter) else filter
  }

  /** What filter `t` predicts for sample `i`, from the samples before it and the row above. */
  function Predict(t: nat, n: nat, prior: seq<byte>, cur: seq<byte>, i: nat): byte
    requires n > 0 && i <= |cur| && (UsesPrior(t) ==> i < |prior|)
  {
    if i < n then
      if t == 2 then prior[i]
      else if t == 3 then prior[i] / 2
      else if t == 4 then Paeth(0, prior[i], 0)
      else 0
    else
      if t == 1 then cur[i - n]
      else if t == 2 then prior[i]
      else if t == 3 then Average(cur[i - n], prior[i])
      else if t == 4 then Paeth(cur[i - n], prior[i], prior[i - n])
      else if t == 5 then cur[i - n] / 2
      else if t == 6 then Paeth(cur[i - n], 0, 0)
      else 0
  }

  /** The filter of the format that a type of the code stands for, and the row above that it looks at. */
  ghost function FilterOf(t: nat): nat {
    if t == 5 then 3 else if t == 6 then 4 else t
  }

  ghost function AboveFor(t: nat, prior: seq<byte>): seq<byte> {
    if UsesPrior(t) then prior else []
  }

  /** The predictions of the code are those of the format. */
  lemma PredictConforms(t: nat, n: nat, prior: seq<byte>, cur: seq<byte>, i: nat)
    requires n > 0 && t < 7 && i <= |cur| && (UsesPrior(t) ==> i < |prior|)
    ensures Predicts(FilterOf(t), if i < n then 0 else cur[i - n], SampleAt(AboveFor(t, prior), i),
                     SampleAt(AboveFor(t, prior), i - n), Predict(t, n, prior, cur, i))
  {
  }

  /** A type stands for the filter number that it was chosen for, with no row above the first. */
  lemma TypeConforms(first: bool, filter: nat, n: nat, prior: seq<byte>, x: byte, row: seq<byte>, i: nat)
    requires filter < 5 && i < |row|
    requires var t := FilterType(first, filter); CodedAt(FilterOf(t), n, AboveFor(t, prior), x, row, i)
    ensures CodedAt(filter, n, if first then [] else prior, x, row, i)
  {
  }

  /** The line stands for the row under a type. */
  ghost predicate LineCoded(t: nat, n: nat, prior: seq<byte>, line: seq<byte>, row: seq<byte>) {
    |line| == |row| && forall i | 0 <= i < |row| :: CodedAt(FilterOf(t), n, AboveFor(t, prior), line[i], row, i)
  }

  lemma FilteredCoded(t: nat, n: nat, prior: seq<byte>, row: seq<byte>)
    requires n > 0 && t < 7 && (UsesPrior(t) ==> |prior| == |row|)
    ensures LineCoded(t, n, prior, Filtered(t, n, prior, row), row)
  {
    forall i | 0 <= i < |row|
      ensures CodedAt(FilterOf(t), n, AboveFor(t, prior), Filtered(t, n, prior, row)[i], row, i)
    {
      PredictConforms(t, n, prior, row, i);
      DifferenceIs(row[i], Predict(t, n, prior, row, i), Filtered(t, n, prior, row)[i]);
    }
  }

  lemma DifferenceIs(v: byte, pred: byte, x: byte)
    requires v == Plus(x, pred)
    ensures (v - x) % 256 == pred
  {
    var sum: int := x + pred;
    if sum >= 256 {
      assert v - x == pred - 256;
    }
  }

  /** The filtered row. */
  function Filtered(t: nat, n: nat, prior: seq<byte>, row: seq<byte>): (r: seq<byte>)
    requires n > 0 && (UsesPrior(t) ==> |prior| == |row|)
    ensures |r| == |row| && forall i | 0 <= i < |row| :: r[i] == Minus(row[i], Predict(t, n, prior, row, i))
  {
    seq(|row|, i requires 0 <= i < |row| => Minus(row[i], Predict(t, n, prior, row, i)))
  }

  /******* The writer *******/

  /** The loop that fills the line buffer for the first pixel. */
  method FilterFirst(t: nat, n: nat, prior: seq<byte>, row: seq<byte>) returns (line: seq<byte>)
    requires 0 < n <= |row| && t < 7 && (UsesPrior(t) ==> |prior| == |row|)
    ensures line == Filtered(t, n, prior, row)[..n]
  {
    line := [];
    for i := 0 to n
      invariant |line| == i && forall j | 0 <= j < i :: line[j] == Minus(row[j], Predict(t, n, prior, row, j))
    {
      var v := row[i];
      match t {
        case 2 => v := Minus(v, prior[i]);
        case 3 => v := Minus(v, prior[i] / 2);
        case 4 => v := Minus(v, Paeth(0, prior[i], 0));
        case _ =>
      }
      line := line + [v];
    }
  }

  /** The same for the other pixels. */
  method FilterOthers(t: nat, n: nat, prior: seq<byte>, row: seq<byte>) returns (line: seq<byte>)
    requires 0 < n <= |row| && t < 7 && (UsesPrior(t) ==> |prior| == |row|)
    ensures line == Filtered(t, n, prior, row)[n..]
  {
    line := [];
    for i := n to |row|
      invariant |line| == i - n && forall j | n <= j < i :: line[j - n] == Minus(row[j], Predict(t, n, prior, row, j))
    {
      var v := row[i];
      match t {
        case 1 => v := Minus(v, row[i - n]);
        case 2 => v := Minus(v, prior[i]);
        case 3 => v := Minus(v, Average(row[i - n], prior[i]));
        case 4 => v := Minus(v, Paeth(row[i - n], prior[i], prior[i - n]));
        case 5 => v := Minus(v, row[i - n] / 2);
        case 6 => v := Minus(v, Paeth(row[i - n], 0, 0));
        case _ =>
      }
      line := line + [v];
    }
  }

  method FilterLine(t: nat, n: nat, prior: seq<byte>, row: seq<byte>) returns (line: seq<byte>)
    requires 0 < n <= |row| && t < 7 && (UsesPrior(t) ==> |prior| == |row|)
    ensures line == Filtered(t, n, prior, row) && LineCoded(t, n, prior, line, row)
  {
    var first := FilterFirst(t, n, prior, row);
    var others := FilterOthers(t, n, prior, row);
    line := first + others;
    FilteredCoded(t, n, prior, row);
  }

  /** A byte read as a signed char. */
  function Signed(b: byte): (r: int)
    ensures -128 <= r < 128 && r % 256 == b
  {
    if b < 128 then b else b - 256
  }

  function Estimate(line: seq<byte>): nat {
    if line == [] then 0 else Estimate(line[..|line| - 1]) + Abs(Signed(line[|line| - 1]))
  }

  method EstimateLine(line: seq<byte>) returns (est: nat)
    ensures est == Estimate(line)
  {
    est := 0;
    for i := 0 to |line|
      invariant est == Estimate(line[..i])
    {
      assert line[..i + 1][..i] == line[..i];
      est := est + Abs(Signed(line[i]));
    }
    assert line[..|line|] == line;
  }

  method TryFilter(first: bool, n: nat, prior: seq<byte>, row: seq<byte>, k: nat) returns (est: nat)
    requires 0 < n <= |row| && k < 5 && (first || |prior| == |row|)
    ensures est == Cost(first, n, prior, row, k)
  {
    var line := FilterLine(FilterType(first, k), n, prior, row);
    est := EstimateLine(line);
  }

  /** Filter `best` is the first with the smallest cost below the limit, or the first of all. */
  ghost predicate Leads(costs: seq<nat>, best: nat, bestVal: nat) {
    && bestVal <= 0x7fff_ffff
    && (if bestVal == 0x7fff_ffff then best == 0 else best < |costs| && bestVal == costs[best])
    && (forall j | 0 <= j < |costs| && costs[j] < 0x7fff_ffff :: bestVal <= costs[j])
    && (forall j | 0 <= j < best :: bestVal < costs[j])
  }

  lemma LeadsOn(costs: seq<nat>, best: nat, bestVal: nat, est: nat)
    requires Leads(costs, best, bestVal)
    ensures if est < bestVal then Leads(costs + [est], |costs|, est) else Leads(costs + [est], best, bestVal)
  {
  }

  ghost predicate CostsOf(first: bool, n: nat, prior: seq<byte>, row: seq<byte>, costs: seq<nat>)
    requires n > 0 && (first || |prior| == |row|)
  {
    forall k | 0 <= k < |costs| :: costs[k] == Cost(first, n, prior, row, k)
  }

  lemma CostsOn(first: bool, n: nat, prior: seq<byte>, row: seq<byte>, costs: seq<nat>, est: nat)
    requires n > 0 && (first || |prior| == |row|)
    requires CostsOf(first, n, prior, row, costs) && est == Cost(first, n, prior, row, |costs|)
    ensures CostsOf(first, n, prior, row, costs + [est])
  {
  }

  /** The loop over the five filters. */
  method BestFilter(first: bool, n: nat, prior: seq<byte>, row: seq<byte>) returns (best: nat, ghost costs: seq<nat>)
    requires 0 < n <= |row| && (first || |prior| == |row|)
    ensures |costs| == 5 && CostsOf(first, n, prior, row, costs)
    ensures best < 5 && forall k | 0 <= k < 5 && costs[k] < 0x7fff_ffff :: costs[best] <= costs[k]
    ensures forall k | 0 <= k < best :: costs[best] < costs[k]
  {
    best, costs := 0, [];
    var bestVal := 0x7fff_ffff;
    for k := 0 to 5
      invariant |costs| == k && CostsOf(first, n, prior, row, costs)
      invariant Leads(costs, best, bestVal)
    {
      var est := TryFilter(first, n, prior, row, k);
      LeadsOn(costs, best, bestVal, est);
      CostsOn(first, n, prior, row, costs, est);
      costs := costs + [est];
      if est < bestVal {
        bestVal, best := est, k;
      }
    }
  }

  /** The writer's filter for one row: the first with the smallest estimate. */
  method ChooseFilter(first: bool, n: nat, prior: seq<byte>, row: seq<byte>) returns (best: nat, line: seq<byte>)
    requires 0 < n <= |row| && (first || |prior| == |row|)
    ensures best < 5 && line == Filtered(FilterType(first, best), n, prior, row)
    ensures forall k | 0 <= k < 5 && Cost(first, n, prior, row, k) < 0x7fff_ffff ::
              Cost(first, n, prior, row, best) <= Cost(first, n, prior, row, k)
    ensures forall k | 0 <= k < best :: Cost(first, n, prior, row, best) < Cost(first, n, prior, row, k)
  {
    ghost var costs;
    best, costs := BestFilter(first, n, prior, row);
    line := FilterLine(FilterType(first, best), n, prior, row);
  }

  ghost function Cost(first: bool, n: nat, prior: seq<byte>, row: seq<byte>, k: nat): nat
    requires n > 0 && (first || |prior| == |row|)
  {
    Estimate(Filtered(FilterType(first, k), n, prior, row))
  }

  /** Rows of the same length, at least one pixel long. */
  predicate Image(rows: seq<seq<byte>>, n: nat, w: nat) {
    0 < n <= w && forall j | 0 <= j < |rows| :: |rows[j]| == w
  }

  function Above(rows: seq<seq<byte>>, j: nat): seq<byte>
    requires j < |rows|
  {
    if j == 0 then [] else rows[j - 1]
  }

  /** Lines one after the other. */
  function Flat(lines: seq<seq<byte>>): seq<byte> {
    if lines == [] then [] else Flat(lines[..|lines| - 1]) + lines[|lines| - 1]
  }

  /** The filter number of row `j` and its filtered samples. */
  ghost predicate LineFor(rows: seq<seq<byte>>, n: nat, w: nat, line: seq<byte>, j: nat)
    requires Image(rows, n, w) && j < |rows|
  {
    |line| == 1 + w && line[0] < 5 && line[1..] == Filtered(FilterType(j == 0, line[0]), n, Above(rows, j), rows[j])
  }

  ghost predicate LinesFor(rows: seq<seq<byte>>, n: nat, w: nat, lines: seq<seq<byte>>)
    requires Image(rows, n, w) && |lines| <= |rows|
  {
    forall j | 0 <= j < |lines| :: LineFor(rows, n, w, lines[j], j)
  }

  /** The bytes are, for each row, a filter number and the row filtered with it. */
  ghost predicate FilteredAs(filt: seq<byte>, rows: seq<seq<byte>>, n: nat, w: nat)
    requires Image(rows, n, w)
  {
    exists lines: seq<seq<byte>> :: |lines| == |rows| && LinesFor(rows, n, w, lines) && filt == Flat(lines)
  }

  /** The loop over the rows, up to compression. */
  method FilterImage(rows: seq<seq<byte>>, n: nat, w: nat) returns (filt: seq<byte>, ghost lines: seq<seq<byte>>)
    requires Image(rows, n, w)
    ensures FilteredAs(filt, rows, n, w) && |lines| == |rows| && LinesFor(rows, n, w, lines) && filt == Flat(lines)
    ensures ImageCoded(filt, rows, n, w)
  {
    filt, lines := [], [];
    for j := 0 to |rows|
      invariant |lines| == j && LinesFor(rows, n, w, lines) && filt == Flat(lines)
    {
      var line := FilterRow(rows, n, w, j);
      ghost var more := lines + [line];
      FlatOn(lines, line, more);
      LinesOn(rows, n, w, lines, line, more);
      filt, lines := filt + line, more;
    }
    forall j | 0 <= j < |rows|
      ensures ImageCodedAt(filt, rows, n, w, j)
    {
      WrittenCoded(filt, rows, n, w, lines, j);
    }
  }

  /** What is written stands for the samples. */
  lemma WrittenCoded(raw: seq<byte>, rows: seq<seq<byte>>, n: nat, w: nat, lines: seq<seq<byte>>, j: nat)
    requires Image(rows, n, w) && |lines| == |rows| && LinesFor(rows, n, w, lines) && Flat(lines) <= raw
    requires j < |rows|
    ensures ImageCodedAt(raw, rows, n, w, j)
  {
    LinesSized(rows, n, w, lines);
    FlatSlice(raw, lines, w, j, StreamLength(w, j));
    SliceCoded(raw, rows, n, w, lines[j], j);
  }

  lemma LinesSized(rows: seq<seq<byte>>, n: nat, w: nat, lines: seq<seq<byte>>)
    requires Image(rows, n, w) && |lines| <= |rows| && LinesFor(rows, n, w, lines)
    ensures SameSize(lines, w)
  {
    forall k | 0 <= k < |lines|
      ensures |lines[k]| == 1 + w
    {
      assert LineFor(rows, n, w, lines[k], k);
    }
  }

  lemma SliceCoded(raw: seq<byte>, rows: seq<seq<byte>>, n: nat, w: nat, line: seq<byte>, j: nat)
    requires Image(rows, n, w) && j < |rows| && LineFor(rows, n, w, line, j)
    requires var at := StreamLength(w, j); at + 1 + w <= |raw| && raw[at..at + 1 + w] == line
    ensures ImageCodedAt(raw, rows, n, w, j)
  {
    LineForCoded(rows, n, w, line, j);
  }

  lemma LineForCoded(rows: seq<seq<byte>>, n: nat, w: nat, line: seq<byte>, j: nat)
    requires Image(rows, n, w) && j < |rows| && LineFor(rows, n, w, line, j)
    ensures RowCoded(n, Above(rows, j), line, rows[j])
  {
    var above, row := Above(rows, j), rows[j];
    FilteredCoded(FilterType(j == 0, line[0]), n, above, row);
    NumberCoded(j == 0, n, above, line, row);
  }

  /** From the type to the number of the filter. */
  lemma NumberCoded(first: bool, n: nat, above: seq<byte>, line: seq<byte>, row: seq<byte>)
    requires |line| == 1 + |row| && line[0] < 5 && (first ==> above == [])
    requires LineCoded(FilterType(first, line[0]), n, above, line[1..], row)
    ensures RowCoded(n, above, line, row)
  {
    var t := FilterType(first, line[0]);
    forall i | 0 <= i < |row|
      ensures RowCodedAt(n, above, line, row, i)
    {
      assert CodedAt(FilterOf(t), n, AboveFor(t, above), line[1..][i], row, i);
      TypeConforms(first, line[0], n, above, line[1 + i], row, i);
    }
  }

  lemma FlatOn(lines: seq<seq<byte>>, line: seq<byte>, more: seq<seq<byte>>)
    requires more == lines + [line]
    ensures Flat(more) == Flat(lines) + line
  {
    assert more[..|more| - 1] == lines;
  }

  lemma LinesOn(rows: seq<seq<byte>>, n: nat, w: nat, lines: seq<seq<byte>>, line: seq<byte>, more: seq<seq<byte>>)
    requires Image(rows, n, w) && |lines| < |rows| && LinesFor(rows, n, w, lines)
    requires LineFor(rows, n, w, line, |lines|) && more == lines + [line]
    ensures LinesFor(rows, n, w, more)
  {
    forall j | 0 <= j < |more|
      ensures LineFor(rows, n, w, more[j], j)
    {
      if j < |lines| {
        assert more[j] == lines[j] && LineFor(rows, n, w, lines[j], j);
      } else {
        assert more[j] == line;
      }
    }
  }

  method FilterRow(rows: seq<seq<byte>>, n: nat, w: nat, j: nat) returns (line: seq<byte>)
    requires Image(rows, n, w) && j < |rows|
    ensures LineFor(rows, n, w, line, j)
  {
    var best, samples := ChooseFilter(j == 0, n, Above(rows, j), rows[j]);
    line := [best] + samples;
  }

  /******* The reader *******/

  /** Sample `i` is the filtered one plus the prediction. */
  predicate UndoneAt(t: nat, n: nat, prior: seq<byte>, raw: seq<byte>, cur: seq<byte>, i: nat)
    requires n > 0 && i < |cur| <= |raw| && (UsesPrior(t) ==> |prior| == |raw|)
  {
    cur[i] == Plus(raw[i], Predict(t, n, prior, cur[..i], i))
  }

  /** The switches that undo one row: the first pixel, then the others. */
  method UnfilterLine(t: nat, n: nat, prior: seq<byte>, raw: seq<byte>) returns (cur: seq<byte>)
    requires 0 < n <= |raw| && (UsesPrior(t) ==> |prior| == |raw|)
    ensures |cur| == |raw| && forall i | 0 <= i < |raw| :: UndoneAt(t, n, prior, raw, cur, i)
    ensures t < 7 ==> LineCoded(t, n, prior, raw, cur)
  {
    cur := [];
    for k := 0 to n
      invariant |cur| == k && forall i | 0 <= i < k :: UndoneAt(t, n, prior, raw, cur, i)
    {
      var v := raw[k];
      match t {
        case 2 => v := Plus(v, prior[k]);
        case 3 => v := Plus(v, prior[k] / 2);
        case 4 => v := Plus(v, Paeth(0, prior[k], 0));
        case _ =>
      }
      cur := Extend(t, n, prior, raw, cur, v);
    }
    for k := n to |raw|
      invariant |cur| == k && forall i | 0 <= i < k :: UndoneAt(t, n, prior, raw, cur, i)
    {
      var v := raw[k];
      match t {
        case 1 => v := Plus(v, cur[k - n]);
        case 2 => v := Plus(v, prior[k]);
        case 3 => v := Plus(v, Average(cur[k - n], prior[k]));
        case 4 => v := Plus(v, Paeth(cur[k - n], prior[k], prior[k - n]));
        case 5 => v := Plus(v, cur[k - n] / 2);
        case 6 => v := Plus(v, Paeth(cur[k - n], 0, 0));
        case _ =>
      }
      cur := Extend(t, n, prior, raw, cur, v);
    }
    if t < 7 {
      UndoneCoded(t, n, prior, raw, cur);
    }
  }

  lemma UndoneCoded(t: nat, n: nat, prior: seq<byte>, raw: seq<byte>, cur: seq<byte>)
    requires 0 < n && t < 7 && |cur| == |raw| && (UsesPrior(t) ==> |prior| == |raw|)
    requires forall i | 0 <= i < |raw| :: UndoneAt(t, n, prior, raw, cur, i)
    ensures LineCoded(t, n, prior, raw, cur)
  {
    forall i | 0 <= i < |cur|
      ensures CodedAt(FilterOf(t), n, AboveFor(t, prior), raw[i], cur, i)
    {
      assert UndoneAt(t, n, prior, raw, cur, i);
      PredictConforms(t, n, prior, cur, i);
      PredictPrefix(t, n, prior, cur, i);
      DifferenceIs(cur[i], Predict(t, n, prior, cur, i), raw[i]);
    }
  }

  /** One more sample. */
  function Extend(t: nat, n: nat, prior: seq<byte>, raw: seq<byte>, cur: seq<byte>, v: byte): (r: seq<byte>)
    requires n > 0 && |cur| < |raw| && (UsesPrior(t) ==> |prior| == |raw|)
    requires v == Plus(raw[|cur|], Predict(t, n, prior, cur, |cur|))
    requires forall i | 0 <= i < |cur| :: UndoneAt(t, n, prior, raw, cur, i)
    ensures r == cur + [v] && forall i | 0 <= i < |r| :: UndoneAt(t, n, prior, raw, r, i)
  {
    var r := cur + [v];
    assert forall i | 0 <= i < |cur| :: UndoneAt(t, n, prior, raw, cur, i) && r[..i] == cur[..i];
    assert r[..|cur|] == cur;
    r
  }

  /** Undoing a filter gives the row back. */
  lemma {:induction false} UnfilterFiltered(t: nat, n: nat, prior: seq<byte>, row: seq<byte>, raw: seq<byte>,
                                            cur: seq<byte>, i: nat)
    requires n > 0 && (UsesPrior(t) ==> |prior| == |row|) && |cur| == |row| && i <= |row|
             && raw == Filtered(t, n, prior, row)
    requires forall j | 0 <= j < |row| :: UndoneAt(t, n, prior, raw, cur, j)
    ensures cur[..i] == row[..i]
  {
    if i > 0 {
      var j := i - 1;
      UnfilterFiltered(t, n, prior, row, raw, cur, j);
      UndoOne(t, n, prior, row, raw, cur, j);
      assert cur[..i] == cur[..j] + [cur[j]] && row[..i] == row[..j] + [row[j]];
    }
  }

  lemma UndoOne(t: nat, n: nat, prior: seq<byte>, row: seq<byte>, raw: seq<byte>, cur: seq<byte>, j: nat)
    requires n > 0 && (UsesPrior(t) ==> |prior| == |row|) && |cur| == |row| == |raw| && j < |row|
             && cur[..j] == row[..j]
    requires raw[j] == Minus(row[j], Predict(t, n, prior, row, j)) && UndoneAt(t, n, prior, raw, cur, j)
    ensures cur[j] == row[j]
  {
    PredictPrefix(t, n, prior, row, j);
  }

  lemma PredictPrefix(t: nat, n: nat, prior: seq<byte>, row: seq<byte>, i: nat)
    requires n > 0 && i < |row| && (UsesPrior(t) ==> |prior| == |row|)
    ensures Predict(t, n, prior, row[..i], i) == Predict(t, n, prior, row, i)
  {
  }

  method ReadRow(t: nat, n: nat, prior: seq<byte>, line: seq<byte>, ghost row: seq<byte>) returns (cur: seq<byte>)
    requires 0 < n <= |line| && (UsesPrior(t) ==> |prior| == |line|)
    ensures |cur| == |line| && (t < 7 ==> LineCoded(t, n, prior, line, cur))
    ensures |row| == |line| && line == Filtered(t, n, prior, row) ==> cur == row
  {
    cur := UnfilterLine(t, n, prior, line);
    if |row| == |line| && line == Filtered(t, n, prior, row) {
      UnfilterFiltered(t, n, prior, row, line, cur, |row|);
      assert cur[..|row|] == cur && row[..|row|] == row;
    }
  }

  /** `stbi__create_png_image_raw` for 8-bit samples with as many channels out as in. If the bytes start
      with lines written for some rows, these rows are read. */
  method CreateImage(raw: seq<byte>, n: nat, w: nat, y: nat, ghost rows: seq<seq<byte>>, ghost lines: seq<seq<byte>>)
    returns (r: Option<seq<seq<byte>>>)
    requires 0 < n <= w
    ensures r.Some? ==> Image(r.value, n, w) && |r.value| == y && ImageCoded(raw, r.value, n, w)
    ensures r.Some? <==> |raw| >= StreamLength(w, y) && FiltersOk(raw, w, y, y)
    ensures Written(raw, n, w, y, rows, lines) ==> r == Some(rows)
  {
    ghost var written := Written(raw, n, w, y, rows, lines);
    if written {
      FlatSize(lines, w);
      assert rows[..y] == rows;
    }
    if |raw| < StreamLength(w, y) {
      return None;
    }
    var out: seq<seq<byte>> := [];
    var at := 0;
    for j := 0 to y
      invariant FiltersOk(raw, w, y, j)
      invariant |out| == j && at == StreamLength(w, j) && Image(out, n, w) && (written ==> out == rows[..j])
      invariant ImageCoded(raw, out, n, w)
    {
      LengthGrows(w, j, y);
      var line := raw[at..at + 1 + w];
      if written {
        WrittenLine(raw, n, w, y, rows, lines, j, at);
        LineIs(rows, n, w, line, j);
      }
      if line[0] > 4 {
        assert !FilterOk(raw, w, j);
        return None;
      }
      var cur := ReadLine(out, n, w, line, if written then rows[j] else []);
      CodedOn(raw, out, n, w, cur, out + [cur]);
      out := out + [cur];
      at := at + 1 + w;
    }
    r := Some(out);
  }

  /** One more row. */
  lemma CodedOn(raw: seq<byte>, out: seq<seq<byte>>, n: nat, w: nat, cur: seq<byte>, more: seq<seq<byte>>)
    requires ImageCoded(raw, out, n, w) && more == out + [cur]
    requires var at := StreamLength(w, |out|);
             at + 1 + w <= |raw| && RowCoded(n, LastOf(out), raw[at..at + 1 + w], cur)
    ensures ImageCoded(raw, more, n, w)
  {
    forall j | 0 <= j < |more|
      ensures ImageCodedAt(raw, more, n, w, j)
    {
      if j < |out| {
        assert ImageCodedAt(raw, out, n, w, j) && Above(more, j) == Above(out, j) && more[j] == out[j];
      } else {
        assert Above(more, j) == LastOf(out) && more[j] == cur;
      }
    }
  }

  /** The filter number of row `j` is one of the five. */
  predicate FilterOk(raw: seq<byte>, w: nat, j: nat) {
    StreamLength(w, j) < |raw| && raw[StreamLength(w, j)] <= 4
  }

  /** So are the first `k` of `y`. */
  predicate FiltersOk(raw: seq<byte>, w: nat, y: nat, k: nat) {
    forall j: nat | j < y && j < k :: FilterOk(raw, w, j)
  }

  function LastOf(rows: seq<seq<byte>>): seq<byte> {
    if rows == [] then [] else rows[|rows| - 1]
  }

  lemma WrittenLine(raw: seq<byte>, n: nat, w: nat, y: nat, rows: seq<seq<byte>>, lines: seq<seq<byte>>, j: nat,
                    at: nat)
    requires Written(raw, n, w, y, rows, lines) && j < y && at == StreamLength(w, j)
    ensures at + 1 + w <= |raw| && raw[at..at + 1 + w] == lines[j] && LineFor(rows, n, w, lines[j], j)
  {
    FlatSlice(raw, lines, w, j, at);
  }

  lemma LineIs(rows: seq<seq<byte>>, n: nat, w: nat, line: seq<byte>, j: nat)
    requires Image(rows, n, w) && j < |rows| && LineFor(rows, n, w, line, j)
    ensures |rows[j]| == w && rows[..j + 1] == rows[..j] + [rows[j]]
    ensures line[1..] == Filtered(FilterType(j == 0, line[0]), n, LastOf(rows[..j]), rows[j])
  {
    assert LastOf(rows[..j]) == Above(rows, j);
  }

  /** The next row, given those read before. */
  method ReadLine(out: seq<seq<byte>>, n: nat, w: nat, line: seq<byte>, ghost row: seq<byte>) returns (cur: seq<byte>)
    requires Image(out, n, w) && |line| == 1 + w && line[0] <= 4
    ensures |cur| == w && RowCoded(n, LastOf(out), line, cur)
    ensures |row| == w && line[1..] == Filtered(FilterType(|out| == 0, line[0]), n, LastOf(out), row) ==> cur == row
  {
    var t := FilterType(|out| == 0, line[0]);
    cur := ReadRow(t, n, LastOf(out), line[1..], row);
    NumberCoded(|out| == 0, n, LastOf(out), line, cur);
  }

  /** The length of `j` lines. */
  function StreamLength(w: nat, j: nat): nat {
    if j == 0 then 0 else StreamLength(w, j - 1) + 1 + w
  }

  lemma {:induction false} StreamLengthIs(w: nat, j: nat)
    ensures StreamLength(w, j) == j * (1 + w)
  {
    if j > 0 {
      StreamLengthIs(w, j - 1);
      assert j * (1 + w) == (j - 1) * (1 + w) + (1 + w);
    }
  }

  lemma {:induction false} LengthGrows(w: nat, j: nat, y: nat)
    requires j < y
    ensures StreamLength(w, j) + 1 + w <= StreamLength(w, y)
  {
    if j + 1 < y {
      LengthGrows(w, j, y - 1);
    }
  }

  /** The bytes start with the filtered rows of an image. */
  ghost predicate Written(raw: seq<byte>, n: nat, w: nat, y: nat, rows: seq<seq<byte>>, lines: seq<seq<byte>>) {
    Image(rows, n, w) && |rows| == |lines| == y && LinesFor(rows, n, w, lines) && SameSize(lines, w)
      && Flat(lines) <= raw
  }

  predicate SameSize(lines: seq<seq<byte>>, w: nat) {
    forall j | 0 <= j < |lines| :: |lines[j]| == 1 + w
  }

  lemma {:induction false} FlatSize(lines: seq<seq<byte>>, w: nat)
    requires SameSize(lines, w)
    ensures |Flat(lines)| == StreamLength(w, |lines|)
  {
    if lines != [] {
      FlatSize(lines[..|lines| - 1], w);
    }
  }

  /** Where line `j` is. */
  lemma {:induction false} FlatSlice(raw: seq<byte>, lines: seq<seq<byte>>, w: nat, j: nat, at: nat)
    requires SameSize(lines, w) && Flat(lines) <= raw && j < |lines| && at == StreamLength(w, j)
    ensures at + 1 + w <= |raw| && raw[at..at + 1 + w] == lines[j]
    decreases |lines|
  {
    var before := lines[..|lines| - 1];
    FlatSize(before, w);
    Joined(Flat(before), lines[|lines| - 1], raw);
    if j < |before| {
      FlatSlice(raw, before, w, j, at);
    }
  }

  lemma Joined(p: seq<byte>, q: seq<byte>, raw: seq<byte>)
    requires p + q <= raw
    ensures p <= raw && |p| + |q| <= |raw| && raw[|p|..|p| + |q|] == q
  {
    var s := p + q;
    assert forall i | 0 <= i < |s| :: raw[i] == s[i];
  }

  /** Writing and reading the pixels of an image, through the filters and through compression: the rows
      come back whenever the filtered bytes fit the decoder's buffer. */
  method PixelsRoundTrip(rows: seq<seq<byte>>, n: nat, w: nat, quality: nat, capacity: nat, available: nat)
    returns (r: Option<seq<seq<byte>>>)
    requires Image(rows, n, w) && capacity > 0
    ensures StreamLength(w, |rows|) <= capacity || 2 * StreamLength(w, |rows|) <= available ==> r == Some(rows)
  {
    var filt, lines := FilterImage(rows, n, w);
    var verdict, raw := Zlib.RoundTrip(filt, quality, capacity, true, available);
    LinesSized(rows, n, w, lines);
    FlatSize(lines, w);
    if !verdict.Finished? {
      return None;
    }
    r := CreateImage(raw, n, w, |rows|, rows, lines);
  }
}

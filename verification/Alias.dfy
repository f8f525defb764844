/** When two pointers into fields have the same address, and when they do not. */
module Alias {
  import opened Options
  import opened Words
  import opened LoopUnique

  /******* Alias analysis of field pointers *******/

  datatype Alias = Same | Uncertain | Different

  /** The result of `value_diff_ptr_index`, which is not part of this model. */
  datatype Diff = Diff(certain: bool, range: int)

  type Differ = (nat, nat) -> Diff

  /** A certain difference is the difference at every moment; an uncertain one is reported as zero. */
  ghost predicate DiffSound(m: Machine, p: Program, diff: Differ) {
    forall a: nat, b: nat, x | a < |p| && b < |p| && Computed(m, p, x) :: DiffSoundAt(diff, a, b, x)
  }

  ghost predicate DiffSoundAt(diff: Differ, a: nat, b: nat, x: Moment)
    requires a < |x.vals| && b < |x.vals|
  {
    if diff(a, b).certain then diff(a, b).range == 0 <==> x.vals[a] == x.vals[b] else diff(a, b).range == 0
  }

  predicate IsPtr(st: Stmt) {
    st.GlobalPtr? || st.ExternalPtr?
  }

  function Indices(st: Stmt): seq<nat>
    requires IsPtr(st)
  {
    if st.GlobalPtr? then st.indices else st.extIndices
  }

  /** The two pointers are into the same field, or into the same array argument. */
  predicate SameTarget(a: Stmt, b: Stmt) {
    || (a.GlobalPtr? && b.GlobalPtr? && a.snode == b.snode)
    || (a.ExternalPtr? && b.ExternalPtr? && a.arg == b.arg)
  }

  /** What the assertions of the analysis demand: pointers with the same target have the same number
      of indices. A base pointer is the load of one argument. */
  ghost predicate WellTargeted(p: Program) {
    forall a, b | 0 <= a < |p| && 0 <= b < |p| :: WellTargetedAt(p[a], p[b])
  }

  ghost predicate WellTargetedAt(a: Stmt, b: Stmt) {
    && (SameTarget(a, b) ==> |Indices(a)| == |Indices(b)|)
    && (a.ExternalPtr? && b.ExternalPtr? && a.base == b.base ==> a.arg == b.arg)
  }

  /** The loop over the indices of two field pointers. */
  function CompareIndices(diff: Differ, xs: seq<nat>, ys: seq<nat>, uncertain: bool): Alias
    requires |xs| == |ys|
  {
    if xs == [] then (if uncertain then Uncertain else Same)
    else
      var d := diff(xs[0], ys[0]);
      if d.range >= 1 || d.range <= -1 then Different
      else CompareIndices(diff, xs[1..], ys[1..], uncertain || !d.certain || d.range != 0)
  }

  /** The loop over the indices of two array pointers. */
  function CompareArrayIndices(diff: Differ, xs: seq<nat>, ys: seq<nat>, uncertain: bool): Alias
    requires |xs| == |ys|
  {
    if xs == [] then (if uncertain then Uncertain else Same)
    else
      var d := diff(xs[0], ys[0]);
      if d.certain && d.range != 0 then Different
      else CompareArrayIndices(diff, xs[1..], ys[1..], uncertain || !d.certain)
  }

  predicate DifferentArrays(a: Stmt, b: Stmt)
    requires a.ExternalPtr? && b.ExternalPtr?
  {
    if a.base != b.base then a.arg != b.arg || a.isGrad != b.isGrad else a.isGrad != b.isGrad
  }

  /** `alias_analysis` for null, field and array pointers. */
  function AliasAnalysis(p: Program, diff: Differ, a: Option<nat>, b: Option<nat>): Alias
    requires WellTargeted(p)
    requires a.Some? ==> a.value < |p| && IsPtr(p[a.value])
    requires b.Some? ==> b.value < |p| && IsPtr(p[b.value])
  {
    if a == b then Same
    else if a.None? || b.None? then Different
    else
      var s, t := p[a.value], p[b.value];
      assert WellTargetedAt(s, t);
      if s.ExternalPtr? || t.ExternalPtr? then
        if !s.ExternalPtr? || !t.ExternalPtr? || DifferentArrays(s, t) then Different
        else CompareArrayIndices(diff, s.extIndices, t.extIndices, false)
      else if s.snode != t.snode then Different
      else CompareIndices(diff, s.indices, t.indices, false)
  }

  /******* Which answer is given *******/

  /** All differences of the indices are certain, and zero. */
  predicate NoDifference(diff: Differ, xs: seq<nat>, ys: seq<nat>)
    requires |xs| == |ys|
  {
    forall i | 0 <= i < |xs| :: diff(xs[i], ys[i]) == Diff(true, 0)
  }

  /** Some difference is not zero, and certain if `certain`. */
  predicate SomeDifference(diff: Differ, certain: bool, xs: seq<nat>, ys: seq<nat>)
    requires |xs| == |ys|
  {
    exists i :: 0 <= i < |xs| && diff(xs[i], ys[i]).range != 0 && (certain ==> diff(xs[i], ys[i]).certain)
  }

  lemma {:induction false} CompareExactly(diff: Differ, xs: seq<nat>, ys: seq<nat>, uncertain: bool)
    requires |xs| == |ys|
    ensures CompareIndices(diff, xs, ys, uncertain).Same? <==> !uncertain && NoDifference(diff, xs, ys)
    ensures CompareIndices(diff, xs, ys, uncertain).Different? <==> SomeDifference(diff, false, xs, ys)
    decreases |xs|
  {
    if xs != [] {
      var d := diff(xs[0], ys[0]);
      CompareExactly(diff, xs[1..], ys[1..], uncertain || !d.certain || d.range != 0);
      SplitFirst(diff, false, xs, ys);
    }
  }

  lemma {:induction false} CompareArrayExactly(diff: Differ, xs: seq<nat>, ys: seq<nat>, uncertain: bool)
    requires |xs| == |ys|
    ensures CompareArrayIndices(diff, xs, ys, uncertain).Same? <==> !uncertain && NoDifference(diff, xs, ys)
    ensures CompareArrayIndices(diff, xs, ys, uncertain).Different? <==> SomeDifference(diff, true, xs, ys)
    decreases |xs|
  {
    if xs != [] {
      var d := diff(xs[0], ys[0]);
      CompareArrayExactly(diff, xs[1..], ys[1..], uncertain || !d.certain);
      SplitFirst(diff, true, xs, ys);
    }
  }

  lemma SplitFirst(diff: Differ, certain: bool, xs: seq<nat>, ys: seq<nat>)
    requires |xs| == |ys| && xs != []
    ensures var d := diff(xs[0], ys[0]);
            && (NoDifference(diff, xs, ys) <==> d == Diff(true, 0) && NoDifference(diff, xs[1..], ys[1..]))
            && (SomeDifference(diff, certain, xs, ys) <==>
                (d.range != 0 && (certain ==> d.certain)) || SomeDifference(diff, certain, xs[1..], ys[1..]))
  {
    var us, vs := xs[1..], ys[1..];
    assert forall i | 0 <= i < |us| :: us[i] == xs[i + 1] && vs[i] == ys[i + 1];
    if NoDifference(diff, us, vs) && diff(xs[0], ys[0]) == Diff(true, 0) {
      forall i | 0 <= i < |xs|
        ensures diff(xs[i], ys[i]) == Diff(true, 0)
      {
        assert i > 0 ==> diff(us[i - 1], vs[i - 1]) == Diff(true, 0);
      }
    }
    if SomeDifference(diff, certain, us, vs) {
      var i :| 0 <= i < |us| && diff(us[i], vs[i]).range != 0 && (certain ==> diff(us[i], vs[i]).certain);
      assert diff(xs[i + 1], ys[i + 1]).range != 0;
    }
    if SomeDifference(diff, certain, xs, ys) {
      var i :| 0 <= i < |xs| && diff(xs[i], ys[i]).range != 0 && (certain ==> diff(xs[i], ys[i]).certain);
      assert i > 0 ==> diff(us[i - 1], vs[i - 1]).range != 0;
    }
  }

  /** Two pointers into one field, or into one array or into its gradient. */
  predicate SameBuffer(a: Stmt, b: Stmt) {
    || (a.GlobalPtr? && b.GlobalPtr? && a.snode == b.snode)
    || (a.ExternalPtr? && b.ExternalPtr? && a.isGrad == b.isGrad && (a.base == b.base || a.arg == b.arg))
  }

  /** The answer for two pointers, from their buffers and the differences of their indices. */
  lemma AliasExactly(p: Program, diff: Differ, a: nat, b: nat)
    requires WellTargeted(p) && a < |p| && b < |p| && IsPtr(p[a]) && IsPtr(p[b])
    ensures SameBuffer(p[a], p[b]) ==> |Indices(p[a])| == |Indices(p[b])|
    ensures AliasAnalysis(p, diff, Some(a), Some(b)).Same? <==>
            a == b || (SameBuffer(p[a], p[b]) && NoDifference(diff, Indices(p[a]), Indices(p[b])))
    ensures AliasAnalysis(p, diff, Some(a), Some(b)).Different? <==>
            && a != b
            && (SameBuffer(p[a], p[b]) ==>
                  SomeDifference(diff, p[a].ExternalPtr?, Indices(p[a]), Indices(p[b])))
  {
    var s, t := p[a], p[b];
    assert WellTargetedAt(s, t);
    if s.GlobalPtr? && t.GlobalPtr? && s.snode == t.snode {
      CompareExactly(diff, s.indices, t.indices, false);
    } else if s.ExternalPtr? && t.ExternalPtr? && !DifferentArrays(s, t) {
      CompareArrayExactly(diff, s.extIndices, t.extIndices, false);
    }
  }

  ghost function Select(vals: seq<Word>, indices: seq<nat>): seq<Word>
    requires forall i | 0 <= i < |indices| :: indices[i] < |vals|
  {
    seq(|indices|, i requires 0 <= i < |indices| => vals[indices[i]])
  }

  lemma {:induction false} CompareSound(m: Machine, p: Program, diff: Differ, xs: seq<nat>, ys: seq<nat>,
                                        uncertain: bool, x: Moment)
    requires |xs| == |ys| && DiffSound(m, p, diff) && Computed(m, p, x)
    requires (forall i | 0 <= i < |xs| :: xs[i] < |p|) && (forall i | 0 <= i < |ys| :: ys[i] < |p|)
    ensures CompareIndices(diff, xs, ys, uncertain).Same? ==> !uncertain && Select(x.vals, xs) == Select(x.vals, ys)
    ensures CompareIndices(diff, xs, ys, uncertain).Different? ==> Select(x.vals, xs) != Select(x.vals, ys)
    decreases |xs|
  {
    if xs != [] {
      assert DiffSoundAt(diff, xs[0], ys[0], x);
      var d := diff(xs[0], ys[0]);
      assert Select(x.vals, xs)[0] == x.vals[xs[0]] && Select(x.vals, ys)[0] == x.vals[ys[0]];
      if d.range == 0 {
        CompareSound(m, p, diff, xs[1..], ys[1..], uncertain || !d.certain || d.range != 0, x);
        assert Select(x.vals, xs) == [x.vals[xs[0]]] + Select(x.vals, xs[1..]);
        assert Select(x.vals, ys) == [x.vals[ys[0]]] + Select(x.vals, ys[1..]);
        assert Select(x.vals, xs)[1..] == Select(x.vals, xs[1..]) && Select(x.vals, ys)[1..] == Select(x.vals, ys[1..]);
      }
    }
  }

  lemma {:induction false} CompareArraySound(m: Machine, p: Program, diff: Differ, xs: seq<nat>, ys: seq<nat>,
                                             uncertain: bool, x: Moment)
    requires |xs| == |ys| && DiffSound(m, p, diff) && Computed(m, p, x)
    requires (forall i | 0 <= i < |xs| :: xs[i] < |p|) && (forall i | 0 <= i < |ys| :: ys[i] < |p|)
    ensures CompareArrayIndices(diff, xs, ys, uncertain).Same? ==>
            !uncertain && Select(x.vals, xs) == Select(x.vals, ys)
    ensures CompareArrayIndices(diff, xs, ys, uncertain).Different? ==> Select(x.vals, xs) != Select(x.vals, ys)
    decreases |xs|
  {
    if xs != [] {
      assert DiffSoundAt(diff, xs[0], ys[0], x);
      var d := diff(xs[0], ys[0]);
      assert Select(x.vals, xs)[0] == x.vals[xs[0]] && Select(x.vals, ys)[0] == x.vals[ys[0]];
      if !d.certain || d.range == 0 {
        CompareArraySound(m, p, diff, xs[1..], ys[1..], uncertain || !d.certain, x);
        assert Select(x.vals, xs) == [x.vals[xs[0]]] + Select(x.vals, xs[1..]);
        assert Select(x.vals, ys) == [x.vals[ys[0]]] + Select(x.vals, ys[1..]);
        assert Select(x.vals, xs)[1..] == Select(x.vals, xs[1..]) && Select(x.vals, ys)[1..] == Select(x.vals, ys[1..]);
      }
    }
  }

  /** A cell of a field, or of an array argument or its gradient. */
  datatype Cell = FieldCell(snode: nat, at: seq<Word>) | ArrayCell(arg: nat, isGrad: bool, at: seq<Word>)

  /** The cell that pointer `k` denotes at a moment. */
  ghost function CellOf(p: Program, x: Moment, k: nat): Cell
    requires WellFormed(p) && |x.vals| == |p| && k < |p| && IsPtr(p[k])
  {
    assert OperandsBefore(p[k], k);
    match p[k]
    case GlobalPtr(s, ix) => FieldCell(s, Select(x.vals, ix))
    case ExternalPtr(_, arg, g, ix) => ArrayCell(arg, g, Select(x.vals, ix))
  }

  /** A definite answer is right at every moment. */
  lemma AliasSound(m: Machine, p: Program, diff: Differ, a: nat, b: nat, x: Moment)
    requires WellFormed(p) && WellTargeted(p) && DiffSound(m, p, diff) && Computed(m, p, x)
    requires a < |p| && b < |p| && IsPtr(p[a]) && IsPtr(p[b])
    ensures AliasAnalysis(p, diff, Some(a), Some(b)).Same? ==> CellOf(p, x, a) == CellOf(p, x, b)
    ensures AliasAnalysis(p, diff, Some(a), Some(b)).Different? ==> CellOf(p, x, a) != CellOf(p, x, b)
  {
    assert OperandsBefore(p[a], a) && OperandsBefore(p[b], b) && WellTargetedAt(p[a], p[b]);
    if p[a].GlobalPtr? && p[b].GlobalPtr? && p[a].snode == p[b].snode {
      CompareSound(m, p, diff, p[a].indices, p[b].indices, false, x);
    } else if p[a].ExternalPtr? && p[b].ExternalPtr? && !DifferentArrays(p[a], p[b]) {
      CompareArraySound(m, p, diff, p[a].extIndices, p[b].extIndices, false, x);
    }
  }
}

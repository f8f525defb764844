/**
 Pointers that must not be cached: those with an index that is neither constant nor a loop index, those
 that may alias another pointer, and everything in their groups.
 */
module DynamicIndexing {
  import opened Options
  import opened LoopUnique
  import opened Alias

  /** The tree of fields: places are its leaves. */
  datatype Layout = Layout(place: nat -> bool, parent: nat -> nat)

  predicate LeavesOnSameBranch(l: Layout, s: nat, t: nat) {
    l.place(s) && l.place(t) && l.parent(s) == l.parent(t)
  }

  /** Pointers with the same base pointer, or to leaves with the same parent. */
  predicate SameGroup(p: Program, l: Layout, a: nat, b: nat) {
    && a < |p| && b < |p|
    && ((p[a].ExternalPtr? && p[b].ExternalPtr? && p[a].base == p[b].base)
        || (p[a].GlobalPtr? && p[b].GlobalPtr? && LeavesOnSameBranch(l, p[a].snode, p[b].snode)))
  }

  predicate Static(p: Program, index: nat) {
    index < |p| && (p[index].Const? || p[index].LoopIndex?)
  }

  /** Some index is computed. */
  predicate DynamicIndex(p: Program, a: nat) {
    a < |p| && IsPtr(p[a]) && exists i | 0 <= i < |Indices(p[a])| :: !Static(p, Indices(p[a])[i])
  }

  predicate UncertainAlias(p: Program, diff: Differ, a: nat, b: nat)
    requires WellTargeted(p)
  {
    a < |p| && b < |p| && a != b && IsPtr(p[a]) && IsPtr(p[b]) && AliasAnalysis(p, diff, Some(a), Some(b)).Uncertain?
  }

  /** Only pointers with the same target may be uncertain: the buckets lose nothing. */
  lemma UncertainSameTarget(p: Program, diff: Differ, a: nat, b: nat)
    requires WellTargeted(p) && UncertainAlias(p, diff, a, b)
    ensures SameTarget(p[a], p[b])
  {
    assert WellTargetedAt(p[a], p[b]);
  }

  predicate SomeUncertain(p: Program, diff: Differ, seen: set<nat>, a: nat)
    requires WellTargeted(p)
  {
    exists b | b in seen :: UncertainAlias(p, diff, a, b)
  }

  /** The pointer that visiting statement `k` flags with its group, if any. */
  function Trigger(p: Program, diff: Differ, seen: set<nat>, k: nat): Option<nat>
    requires WellFormed(p) && WellTargeted(p) && k < |p|
  {
    assert OperandsBefore(p[k], k);
    match p[k]
    case MatrixPtr(a, offset) => if IsPtr(p[a]) && !p[offset].Const? then Some(a) else None
    case _ => if IsPtr(p[k]) && (DynamicIndex(p, k) || SomeUncertain(p, diff, seen, k)) then Some(k) else None
  }

  /** The pointer and the seen pointers of its group. */
  function Flags(p: Program, l: Layout, seen: set<nat>, t: Option<nat>): set<nat> {
    if t.None? then {} else {t.value} + (set b | b in seen && SameGroup(p, l, t.value, b))
  }

  /** What visiting statement `k` flags, given the pointers seen before. */
  function VisitFlags(p: Program, l: Layout, diff: Differ, seen: set<nat>, k: nat): set<nat>
    requires WellFormed(p) && WellTargeted(p)
  {
    if k < |p| then Flags(p, l, seen, Trigger(p, diff, seen, k)) else {}
  }

  predicate PointerAt(p: Program, k: nat) {
    k < |p| && IsPtr(p[k])
  }

  /** The pointers among the first `i` visited statements. */
  function Pointers(p: Program, order: seq<nat>, i: nat): set<nat>
    requires i <= |order|
  {
    set j | 0 <= j < i && PointerAt(p, order[j]) :: order[j]
  }

  function AllPointers(p: Program, order: seq<nat>): set<nat> {
    Pointers(p, order, |order|)
  }

  /** Every trigger with its whole group, all pointers being known. */
  ghost function Closed(p: Program, l: Layout, diff: Differ, order: seq<nat>): set<nat>
    requires WellFormed(p) && WellTargeted(p)
  {
    set j, a | 0 <= j < |order| && a in VisitFlags(p, l, diff, AllPointers(p, order), order[j]) :: a
  }

  lemma FlagsGrow(p: Program, l: Layout, diff: Differ, seen: set<nat>, all: set<nat>, k: nat)
    requires WellFormed(p) && WellTargeted(p) && seen <= all
    ensures VisitFlags(p, l, diff, seen, k) <= VisitFlags(p, l, diff, all, k)
  {
  }

  /******* The analyzer *******/

  class DynamicIndexingAnalyzer {
    var flagged: set<nat>
    var globalPtrs: set<nat>
    var externPtrs: set<nat>
    var globalBySnode: map<nat, seq<nat>>
    var externByArg: map<nat, seq<nat>>

    constructor ()
      ensures flagged == {} && globalPtrs == {} && externPtrs == {} && globalBySnode == map[] && externByArg == map[]
    {
      flagged, globalPtrs, externPtrs, globalBySnode, externByArg := {}, {}, {}, map[], map[];
    }

    function Seen(): set<nat>
      reads this
    {
      globalPtrs + externPtrs
    }

    ghost predicate Valid(p: Program)
      reads this
    {
      GlobalsOk(p, globalPtrs, globalBySnode) && ExternsOk(p, externPtrs, externByArg)
    }

    method RecordDynamicIndexedPtr(p: Program, l: Layout, a: nat)
      requires Valid(p) && a < |p| && IsPtr(p[a])
      modifies `flagged
      ensures flagged == old(flagged) + Flags(p, l, Seen(), Some(a))
    {
      flagged := flagged + {a};
      if p[a].ExternalPtr? {
        flagged := flagged + set b | b in externPtrs && b != a && p[b].base == p[a].base;
      } else {
        flagged := flagged + set b | b in globalPtrs && b != a && LeavesOnSameBranch(l, p[b].snode, p[a].snode);
      }
    }

    /** Whether a pointer of the bucket may alias `a`. */
    method BucketUncertain(p: Program, diff: Differ, bucket: seq<nat>, a: nat) returns (r: bool)
      requires WellTargeted(p) && a < |p| && IsPtr(p[a]) && forall b | b in bucket :: b < |p| && IsPtr(p[b])
      ensures r <==> exists b | b in bucket :: UncertainAlias(p, diff, a, b)
    {
      for i := 0 to |bucket|
        invariant forall b | b in bucket[..i] :: !UncertainAlias(p, diff, a, b)
      {
        var b := bucket[i];
        assert b in bucket;
        if b != a && AliasAnalysis(p, diff, Some(a), Some(b)).Uncertain? {
          assert UncertainAlias(p, diff, a, b);
          return true;
        }
      }
      assert bucket[..|bucket|] == bucket;
      return false;
    }

    method RecordMayAliasPtr(p: Program, l: Layout, diff: Differ, a: nat)
      requires Valid(p) && WellTargeted(p) && a < |p| && IsPtr(p[a])
      modifies `flagged
      ensures flagged == old(flagged) + if SomeUncertain(p, diff, Seen(), a) then Flags(p, l, Seen(), Some(a)) else {}
    {
      var bucket := [];
      if p[a].ExternalPtr? {
        if p[a].arg in externByArg {
          bucket := externByArg[p[a].arg];
        }
      } else if p[a].snode in globalBySnode {
        bucket := globalBySnode[p[a].snode];
      }
      var uncertain := BucketUncertain(p, diff, bucket, a);
      assert uncertain == SomeUncertain(p, diff, Seen(), a) by {
        forall b | b in Seen() && UncertainAlias(p, diff, a, b)
          ensures b in bucket
        {
          UncertainSameTarget(p, diff, a, b);
        }
      }
      if uncertain {
        RecordDynamicIndexedPtr(p, l, a);
      }
    }

    method AddGlobalPtr(p: Program, k: nat)
      requires Valid(p) && k < |p| && p[k].GlobalPtr?
      modifies `globalPtrs, `globalBySnode
      ensures Valid(p) && globalPtrs == old(globalPtrs) + {k}
    {
      if k !in globalPtrs {
        var key := p[k].snode;
        globalBySnode := globalBySnode[key := (if key in globalBySnode then globalBySnode[key] else []) + [k]];
      }
      globalPtrs := globalPtrs + {k};
    }

    method AddExternPtr(p: Program, k: nat)
      requires Valid(p) && k < |p| && p[k].ExternalPtr?
      modifies `externPtrs, `externByArg
      ensures Valid(p) && externPtrs == old(externPtrs) + {k}
    {
      if k !in externPtrs {
        var key := p[k].arg;
        externByArg := externByArg[key := (if key in externByArg then externByArg[key] else []) + [k]];
      }
      externPtrs := externPtrs + {k};
    }

    method RecordDynamicIndices(p: Program, l: Layout, k: nat)
      requires WellFormed(p) && Valid(p) && k < |p| && IsPtr(p[k])
      modifies `flagged
      ensures flagged == old(flagged) + if DynamicIndex(p, k) then Flags(p, l, Seen(), Some(k)) else {}
    {
      var indices := Indices(p[k]);
      assert OperandsBefore(p[k], k);
      for i := 0 to |indices|
        invariant flagged == old(flagged) + if exists j :: 0 <= j < i && !Static(p, indices[j])
                                            then Flags(p, l, Seen(), Some(k)) else {}
      {
        if !p[indices[i]].Const? && !p[indices[i]].LoopIndex? {
          assert !Static(p, indices[i]);
          RecordDynamicIndexedPtr(p, l, k);
        }
      }
    }

    method VisitPtr(p: Program, l: Layout, diff: Differ, k: nat)
      requires WellFormed(p) && WellTargeted(p) && Valid(p) && k < |p| && IsPtr(p[k])
      modifies this
      ensures Valid(p) && Seen() == old(Seen()) + {k}
      ensures flagged == old(flagged) + VisitFlags(p, l, diff, old(Seen()), k)
    {
      RecordDynamicIndices(p, l, k);
      RecordMayAliasPtr(p, l, diff, k);
      if p[k].GlobalPtr? {
        AddGlobalPtr(p, k);
      } else {
        AddExternPtr(p, k);
      }
    }

    method VisitMatrixPtr(p: Program, l: Layout, diff: Differ, k: nat)
      requires WellFormed(p) && WellTargeted(p) && Valid(p) && k < |p| && p[k].MatrixPtr?
      modifies `flagged
      ensures flagged == old(flagged) + VisitFlags(p, l, diff, Seen(), k)
    {
      assert OperandsBefore(p[k], k);
      var origin := p[k].origin;
      if !IsPtr(p[origin]) {
        return;
      }
      if p[p[k].offset].Const? {
        return;
      }
      RecordDynamicIndexedPtr(p, l, origin);
    }

    method Visit(p: Program, l: Layout, diff: Differ, k: nat)
      requires WellFormed(p) && WellTargeted(p) && Valid(p) && k < |p|
      modifies this
      ensures Valid(p) && Seen() == old(Seen()) + if IsPtr(p[k]) then {k} else {}
      ensures flagged == old(flagged) + VisitFlags(p, l, diff, old(Seen()), k)
    {
      if IsPtr(p[k]) {
        VisitPtr(p, l, diff, k);
      } else if p[k].MatrixPtr? {
        VisitMatrixPtr(p, l, diff, k);
      }
    }

    /** One traversal. */
    method Traverse(p: Program, l: Layout, diff: Differ, order: seq<nat>)
      requires WellFormed(p) && WellTargeted(p) && Valid(p) && InRange(p, order)
      modifies this
      ensures Valid(p) && Seen() == old(Seen()) + AllPointers(p, order)
      ensures flagged == old(flagged) + FlaggedBy(p, l, diff, order, |order|, old(Seen()))
    {
      for i := 0 to |order|
        invariant Valid(p) && Seen() == old(Seen()) + Pointers(p, order, i)
        invariant flagged == old(flagged) + FlaggedBy(p, l, diff, order, i, old(Seen()))
      {
        OneMorePointer(p, order, i);
        Visit(p, l, diff, order[i]);
      }
    }
  }

  predicate InRange(p: Program, order: seq<nat>) {
    forall j | 0 <= j < |order| :: order[j] < |p|
  }

  lemma OneMorePointer(p: Program, order: seq<nat>, i: nat)
    requires i < |order|
    ensures Pointers(p, order, i + 1) == Pointers(p, order, i) + if PointerAt(p, order[i]) then {order[i]} else {}
  {
  }

  /** What a traversal flags in its first `i` visits, if it starts with the pointers in `seen`. */
  function FlaggedBy(p: Program, l: Layout, diff: Differ, order: seq<nat>, i: nat, seen: set<nat>): set<nat>
    requires WellFormed(p) && WellTargeted(p) && i <= |order|
  {
    if i == 0 then {}
    else FlaggedBy(p, l, diff, order, i - 1, seen)
         + VisitFlags(p, l, diff, seen + Pointers(p, order, i - 1), order[i - 1])
  }

  lemma PointersGrow(p: Program, order: seq<nat>, i: nat)
    requires i <= |order|
    ensures Pointers(p, order, i) <= AllPointers(p, order)
  {
  }

  /** A traversal flags nothing outside the closed form. */
  lemma {:induction false} FlaggedInClosed(p: Program, l: Layout, diff: Differ, order: seq<nat>, i: nat, seen: set<nat>)
    requires WellFormed(p) && WellTargeted(p) && i <= |order| && seen <= AllPointers(p, order)
    ensures FlaggedBy(p, l, diff, order, i, seen) <= Closed(p, l, diff, order)
  {
    if i > 0 {
      var j := i - 1;
      FlaggedInClosed(p, l, diff, order, j, seen);
      PointersGrow(p, order, j);
      FlagsGrow(p, l, diff, seen + Pointers(p, order, j), AllPointers(p, order), order[j]);
      FlagsInClosed(p, l, diff, order, j);
    }
  }

  lemma FlagsInClosed(p: Program, l: Layout, diff: Differ, order: seq<nat>, j: nat)
    requires WellFormed(p) && WellTargeted(p) && j < |order|
    ensures VisitFlags(p, l, diff, AllPointers(p, order), order[j]) <= Closed(p, l, diff, order)
  {
  }

  /** A traversal that knows all pointers flags all of the closed form. */
  lemma {:induction false} FlaggedAll(p: Program, l: Layout, diff: Differ, order: seq<nat>, i: nat, j: nat)
    requires WellFormed(p) && WellTargeted(p) && j < i <= |order|
    ensures VisitFlags(p, l, diff, AllPointers(p, order), order[j])
            <= FlaggedBy(p, l, diff, order, i, AllPointers(p, order))
  {
    if j < i - 1 {
      FlaggedAll(p, l, diff, order, i - 1, j);
    } else {
      PointersGrow(p, order, j);
      assert AllPointers(p, order) + Pointers(p, order, j) == AllPointers(p, order);
    }
  }

  lemma FullTraversal(p: Program, l: Layout, diff: Differ, order: seq<nat>)
    requires WellFormed(p) && WellTargeted(p)
    ensures FlaggedBy(p, l, diff, order, |order|, AllPointers(p, order)) == Closed(p, l, diff, order)
  {
    FlaggedInClosed(p, l, diff, order, |order|, AllPointers(p, order));
    forall j | 0 <= j < |order|
      ensures VisitFlags(p, l, diff, AllPointers(p, order), order[j])
              <= FlaggedBy(p, l, diff, order, |order|, AllPointers(p, order))
    {
      FlaggedAll(p, l, diff, order, |order|, j);
    }
  }

  /** The buckets hold the pointers seen, by target. */
  ghost predicate GlobalsOk(p: Program, ptrs: set<nat>, buckets: map<nat, seq<nat>>) {
    && (forall a | a in ptrs :: a < |p| && p[a].GlobalPtr? && InBucket(buckets, p[a].snode, a))
    && (forall s, a | s in buckets && a in buckets[s] :: a in ptrs && a < |p| && p[a].GlobalPtr? && p[a].snode == s)
  }

  ghost predicate ExternsOk(p: Program, ptrs: set<nat>, buckets: map<nat, seq<nat>>) {
    && (forall a | a in ptrs :: a < |p| && p[a].ExternalPtr? && InBucket(buckets, p[a].arg, a))
    && (forall s, a | s in buckets && a in buckets[s] :: a in ptrs && a < |p| && p[a].ExternalPtr? && p[a].arg == s)
  }

  predicate InBucket(buckets: map<nat, seq<nat>>, key: nat, a: nat) {
    key in buckets && a in buckets[key]
  }

  /** The closed form depends on the set of statements visited, not on their order. */
  lemma OrderIndependent(p: Program, l: Layout, diff: Differ, order: seq<nat>, other: seq<nat>)
    requires WellFormed(p) && WellTargeted(p) && forall k :: k in order <==> k in other
    ensures Closed(p, l, diff, order) == Closed(p, l, diff, other)
  {
    assert AllPointers(p, order) == AllPointers(p, other) by {
      assert forall k :: k in AllPointers(p, order) <==> k in order && PointerAt(p, k);
      assert forall k :: k in AllPointers(p, other) <==> k in other && PointerAt(p, k);
    }
    ClosedWithin(p, l, diff, order, other);
    ClosedWithin(p, l, diff, other, order);
  }

  lemma ClosedWithin(p: Program, l: Layout, diff: Differ, order: seq<nat>, other: seq<nat>)
    requires WellFormed(p) && WellTargeted(p) && (forall k | k in order :: k in other)
             && AllPointers(p, order) == AllPointers(p, other)
    ensures Closed(p, l, diff, order) <= Closed(p, l, diff, other)
  {
    forall a | a in Closed(p, l, diff, order)
      ensures a in Closed(p, l, diff, other)
    {
      var j :| 0 <= j < |order| && a in VisitFlags(p, l, diff, AllPointers(p, order), order[j]);
      assert order[j] in order && order[j] in other;
      var i :| 0 <= i < |other| && other[i] == order[j];
      assert a in VisitFlags(p, l, diff, AllPointers(p, other), other[i]);
    }
  }

  /******* Which pointers are flagged *******/

  /** Two pointers with one base pointer, or to leaves of the field tree with one parent. */
  ghost predicate Grouped(p: Program, l: Layout, a: nat, b: nat)
    requires a < |p| && b < |p|
  {
    match p[a]
    case ExternalPtr(base, _, _, _) => p[b].ExternalPtr? && p[b].base == base
    case GlobalPtr(s, _) => p[b].GlobalPtr? && l.place(s) && l.place(p[b].snode) && l.parent(s) == l.parent(p[b].snode)
    case _ => false
  }

  /** The addresses may or may not be the same: one buffer, with no difference of the indices that tells them
      apart, and not all of them certain. */
  ghost predicate MayAlias(p: Program, diff: Differ, a: nat, b: nat)
    requires a < |p| && b < |p| && IsPtr(p[a]) && IsPtr(p[b])
  {
    var xs, ys := Indices(p[a]), Indices(p[b]);
    && a != b && SameBuffer(p[a], p[b]) && |xs| == |ys|
    && !NoDifference(diff, xs, ys) && !SomeDifference(diff, p[a].ExternalPtr?, xs, ys)
  }

  /** A reason to flag pointer `t`: it is visited and has an index that is neither a constant nor a loop index, or
      may alias another visited pointer; or an element of a matrix at `t` is visited at an offset that is not a
      constant. */
  ghost predicate Reason(p: Program, diff: Differ, order: seq<nat>, t: nat) {
    && t < |p| && IsPtr(p[t])
    && (|| (t in order && exists i :: 0 <= i < |Indices(p[t])| && Computes(p, Indices(p[t])[i]))
        || (t in order && exists b :: b in order && b < |p| && IsPtr(p[b]) && MayAlias(p, diff, t, b))
        || (exists k :: k in order && ElementOf(p, k, t)))
  }

  ghost predicate Computes(p: Program, index: nat) {
    index < |p| ==> !p[index].Const? && !p[index].LoopIndex?
  }

  ghost predicate ElementOf(p: Program, k: nat, t: nat) {
    k < |p| && p[k].MatrixPtr? && p[k].origin == t && (p[k].offset < |p| ==> !p[p[k].offset].Const?)
  }

  /** A pointer is in the closed form if and only if there is a reason to flag it, or it is visited and there is
      one to flag a pointer of its group. */
  lemma ClosedExactly(p: Program, l: Layout, diff: Differ, order: seq<nat>, a: nat)
    requires WellFormed(p) && WellTargeted(p)
    ensures a in Closed(p, l, diff, order) <==> FlaggedFor(p, l, diff, order, a)
  {
    if a in Closed(p, l, diff, order) {
      var j :| 0 <= j < |order| && a in VisitFlags(p, l, diff, AllPointers(p, order), order[j]);
      var t := Trigger(p, diff, AllPointers(p, order), order[j]).value;
      TriggerReason(p, diff, order, j);
      assert Reason(p, diff, order, t);
      assert a == t || (a in AllPointers(p, order) && SameGroup(p, l, t, a));
    }
    if FlaggedFor(p, l, diff, order, a) {
      var t :| Reason(p, diff, order, t) && (a == t || (a in order && PointerAt(p, a) && Grouped(p, l, t, a)));
      var j := ReasonTrigger(p, diff, order, t);
      assert a == t || (a in AllPointers(p, order) && SameGroup(p, l, t, a));
      assert a in VisitFlags(p, l, diff, AllPointers(p, order), order[j]);
    }
  }

  ghost predicate FlaggedFor(p: Program, l: Layout, diff: Differ, order: seq<nat>, a: nat) {
    exists t :: Reason(p, diff, order, t) && (a == t || (a in order && PointerAt(p, a) && Grouped(p, l, t, a)))
  }

  lemma UncertainExactly(p: Program, diff: Differ, a: nat, b: nat)
    requires WellTargeted(p) && a < |p| && b < |p| && IsPtr(p[a]) && IsPtr(p[b])
    ensures UncertainAlias(p, diff, a, b) <==> MayAlias(p, diff, a, b)
  {
    AliasExactly(p, diff, a, b);
  }

  lemma TriggerReason(p: Program, diff: Differ, order: seq<nat>, j: nat)
    requires WellFormed(p) && WellTargeted(p) && j < |order| && order[j] < |p|
    requires Trigger(p, diff, AllPointers(p, order), order[j]).Some?
    ensures Reason(p, diff, order, Trigger(p, diff, AllPointers(p, order), order[j]).value)
  {
    var k, all := order[j], AllPointers(p, order);
    assert OperandsBefore(p[k], k) && k in order;
    if p[k].MatrixPtr? {
      assert ElementOf(p, k, p[k].origin);
    } else if !DynamicIndex(p, k) {
      var b :| b in all && UncertainAlias(p, diff, k, b);
      UncertainExactly(p, diff, k, b);
    } else {
      var i :| 0 <= i < |Indices(p[k])| && !Static(p, Indices(p[k])[i]);
      assert Computes(p, Indices(p[k])[i]);
    }
  }

  lemma ReasonTrigger(p: Program, diff: Differ, order: seq<nat>, t: nat) returns (j: nat)
    requires WellFormed(p) && WellTargeted(p) && Reason(p, diff, order, t)
    ensures j < |order| && order[j] < |p| && Trigger(p, diff, AllPointers(p, order), order[j]) == Some(t)
  {
    var all := AllPointers(p, order);
    if k :| k in order && ElementOf(p, k, t) {
      j :| 0 <= j < |order| && order[j] == k;
      assert OperandsBefore(p[k], k);
    } else {
      j :| 0 <= j < |order| && order[j] == t;
      if i :| 0 <= i < |Indices(p[t])| && Computes(p, Indices(p[t])[i]) {
        assert !Static(p, Indices(p[t])[i]);
        assert DynamicIndex(p, t);
      } else {
        var b :| b in order && b < |p| && IsPtr(p[b]) && MayAlias(p, diff, t, b);
        UncertainExactly(p, diff, t, b);
        assert b in all && SomeUncertain(p, diff, all, t);
      }
    }
  }

  /** `gather_dynamically_indexed_pointers`: after two traversals the flagged pointers are the closed
      form. */
  method GatherDynamicallyIndexedPointers(p: Program, l: Layout, diff: Differ, order: seq<nat>) returns (r: set<nat>)
    requires WellFormed(p) && WellTargeted(p) && InRange(p, order)
    ensures r == Closed(p, l, diff, order)
    ensures forall a: nat :: a in r <==> FlaggedFor(p, l, diff, order, a)
  {
    FlaggedInClosed(p, l, diff, order, |order|, {});
    FullTraversal(p, l, diff, order);
    var pass := new DynamicIndexingAnalyzer();
    assert pass.Seen() == {};
    pass.Traverse(p, l, diff, order);
    assert pass.flagged <= Closed(p, l, diff, order) && pass.Seen() == AllPointers(p, order);
    pass.Traverse(p, l, diff, order);
    r := pass.flagged;
    forall a: nat
      ensures a in Closed(p, l, diff, order) <==> FlaggedFor(p, l, diff, order, a)
    {
      ClosedExactly(p, l, diff, order, a);
    }
  }

  /** A pointer that is not flagged is always or never at the address of another one. */
  lemma UnflaggedDefinite(m: Machine, p: Program, l: Layout, diff: Differ, order: seq<nat>, i: nat, b: nat, x: Moment,
                          y: Moment)
    requires WellFormed(p) && WellTargeted(p) && DiffSound(m, p, diff) && Computed(m, p, x) && Computed(m, p, y)
    requires i < |order| && PointerAt(p, order[i]) && b in AllPointers(p, order)
             && order[i] !in Closed(p, l, diff, order)
    ensures CellOf(p, x, order[i]) == CellOf(p, x, b) <==> CellOf(p, y, order[i]) == CellOf(p, y, b)
  {
    var a := order[i];
    assert a !in VisitFlags(p, l, diff, AllPointers(p, order), order[i]);
    assert PointerAt(p, b);
    if a != b {
      assert !UncertainAlias(p, diff, a, b);
      AliasSound(m, p, diff, a, b, x);
      AliasSound(m, p, diff, a, b, y);
    }
  }
}
